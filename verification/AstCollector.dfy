/** The collector of operations, copies and locals
    (src/pyflow/analysis/astcollector.py): the recursive visitor, the loop over an
    explicit stack that replaced it, and what both collect. */
module AstCollector {

  /** Trees as the collector sees them. A code object is a leaf wherever it is
      met inside a tree; `parts` are the children a forced visit reaches. */
  datatype Node =
    | Leaf(value: string)
    | Code(id: nat, parts: seq<Node>)
    | Local(id: nat)
    | Existing(id: nat)
    | Items(items: seq<Node>)
    | InputBlock(inputs: seq<Input>)
    | OutputBlock(outputs: seq<Output>)
    | Assign(id: nat, expr: Node, targets: seq<Node>)
    | Operation(id: nat, children: seq<Node>)
    | Structure(id: nat, children: seq<Node>)
    | Foreign(value: string)

  datatype Input = Input(src: string, lcl: Node)

  datatype Output = Output(expr: Node, dst: string)

  function Size(n: Node): (size: nat)
    ensures size > 0
  {
    match n
    case Items(items) => 1 + SizeAll(items)
    case InputBlock(inputs) => 1 + SizeInputs(inputs)
    case OutputBlock(outputs) => 1 + SizeOutputs(outputs)
    case Assign(_, expr, targets) => 1 + Size(expr) + SizeAll(targets)
    case Operation(_, children) => 1 + SizeAll(children)
    case Structure(_, children) => 1 + SizeAll(children)
    case _ => 1
  }

  function SizeAll(ns: seq<Node>): nat {
    if ns == [] then 0 else Size(ns[0]) + SizeAll(ns[1..])
  }

  function SizeInputs(inputs: seq<Input>): nat {
    if inputs == [] then 0 else Size(inputs[0].lcl) + SizeInputs(inputs[1..])
  }

  function SizeOutputs(outputs: seq<Output>): nat {
    if outputs == [] then 0 else Size(outputs[0].expr) + SizeOutputs(outputs[1..])
  }

  function InputLocals(inputs: seq<Input>): (r: seq<Node>)
    ensures SizeAll(r) == SizeInputs(inputs)
  {
    if inputs == [] then [] else
      var rest := InputLocals(inputs[1..]);
      assert ([inputs[0].lcl] + rest)[1..] == rest;
      [inputs[0].lcl] + rest
  }

  function OutputExpressions(outputs: seq<Output>): (r: seq<Node>)
    ensures SizeAll(r) == SizeOutputs(outputs)
  {
    if outputs == [] then [] else
      var rest := OutputExpressions(outputs[1..]);
      assert ([outputs[0].expr] + rest)[1..] == rest;
      [outputs[0].expr] + rest
  }

  /** The nodes a visit goes on to, in order. */
  function Subnodes(n: Node): (r: seq<Node>)
    ensures SizeAll(r) < Size(n)
  {
    match n
    case Items(items) => items
    case InputBlock(inputs) => InputLocals(inputs)
    case OutputBlock(outputs) => OutputExpressions(outputs)
    case Assign(_, expr, targets) =>
      assert ([expr] + targets)[1..] == targets;
      [expr] + targets
    case Operation(_, children) => children
    case Structure(_, children) => children
    case _ => []
  }

  /** What `visitChildrenForced` reaches from the root. */
  function ForcedChildren(n: Node): seq<Node> {
    match n
    case Code(_, parts) => parts
    case InputBlock(inputs) =>
      seq(|inputs|, i requires 0 <= i < |inputs| => Structure(0, [Leaf(inputs[i].src), inputs[i].lcl]))
    case OutputBlock(outputs) =>
      seq(|outputs|, i requires 0 <= i < |outputs| => Structure(0, [outputs[i].expr, Leaf(outputs[i].dst)]))
    case _ => Subnodes(n)
  }

  // -------------------------------------------------------- recursive visitor

  datatype Collected = Collected(ops: seq<Node>, copies: seq<Node>, locals: set<Node>)

  /** A visit ends normally, or with the type error of an unsupported value and
      whatever had been collected by then. */
  datatype Visited = Visited(collected: Collected, ok: bool)

  predicate IsCopy(n: Node) {
    n.Assign? && n.expr.Local?
  }

  function Entering(n: Node, c: Collected): Collected {
    if n.Local? || n.Existing? then c.(locals := c.locals + {n})
    else if IsCopy(n) then c.(copies := c.copies + [n])
    else c
  }

  function Leaving(n: Node, c: Collected): Collected {
    if n.Operation? then c.(ops := c.ops + [n]) else c
  }

  /** Calling the dispatcher on a node. */
  function Visit(n: Node, c: Collected): Visited
    decreases Size(n), 0
  {
    if n.Foreign? then Visited(c, false)
    else
      var inner := VisitAll(Subnodes(n), Entering(n, c));
      if inner.ok then Visited(Leaving(n, inner.collected), true) else inner
  }

  function VisitAll(ns: seq<Node>, c: Collected): Visited
    decreases SizeAll(ns), |ns| + 1
  {
    if ns == [] then Visited(c, true)
    else
      var first := Visit(ns[0], c);
      if first.ok then VisitAll(ns[1..], first.collected) else first
  }

  // ------------------------------------------------------------ what is found

  /** Whether the collector supports every value below n. */
  predicate Supported(n: Node)
    decreases Size(n), 0
  {
    !n.Foreign? && SupportedAll(Subnodes(n))
  }

  predicate SupportedAll(ns: seq<Node>)
    decreases SizeAll(ns), |ns| + 1
  {
    ns != [] ==> Supported(ns[0]) && SupportedAll(ns[1..])
  }

  /** The operations of a tree, children before parents. */
  function PostOrder(n: Node): seq<Node>
    decreases Size(n), 0
  {
    PostOrderAll(Subnodes(n)) + if n.Operation? then [n] else []
  }

  function PostOrderAll(ns: seq<Node>): seq<Node>
    decreases SizeAll(ns), |ns| + 1
  {
    if ns == [] then [] else PostOrder(ns[0]) + PostOrderAll(ns[1..])
  }

  /** The copies of a tree, parents before children. */
  function Copies(n: Node): seq<Node>
    decreases Size(n), 0
  {
    (if IsCopy(n) then [n] else []) + CopiesAll(Subnodes(n))
  }

  function CopiesAll(ns: seq<Node>): seq<Node>
    decreases SizeAll(ns), |ns| + 1
  {
    if ns == [] then [] else Copies(ns[0]) + CopiesAll(ns[1..])
  }

  function Symbols(n: Node): set<Node>
    decreases Size(n), 0
  {
    (if n.Local? || n.Existing? then {n} else {}) + SymbolsAll(Subnodes(n))
  }

  function SymbolsAll(ns: seq<Node>): set<Node>
    decreases SizeAll(ns), |ns| + 1
  {
    if ns == [] then {} else Symbols(ns[0]) + SymbolsAll(ns[1..])
  }

  function Plus(c: Collected, ops: seq<Node>, copies: seq<Node>, locals: set<Node>): Collected {
    Collected(c.ops + ops, c.copies + copies, c.locals + locals)
  }

  lemma {:induction false} VisitCollects(n: Node, c: Collected)
    ensures Visit(n, c).ok <==> Supported(n)
    ensures Supported(n) ==> Visit(n, c).collected == Plus(c, PostOrder(n), Copies(n), Symbols(n))
    decreases Size(n), 0
  {
    if !n.Foreign? {
      var ns, e := Subnodes(n), Entering(n, c);
      VisitAllCollects(ns, e);
      EnteringAndLeaving(n, c, PostOrderAll(ns), CopiesAll(ns), SymbolsAll(ns));
    }
  }

  /** What a node adds itself, around what its subnodes add. */
  lemma {:induction false} EnteringAndLeaving(
    n: Node, c: Collected, ops: seq<Node>, copies: seq<Node>, locals: set<Node>)
    ensures Leaving(n, Plus(Entering(n, c), ops, copies, locals))
         == Plus(c, ops + (if n.Operation? then [n] else []), (if IsCopy(n) then [n] else []) + copies,
                 (if n.Local? || n.Existing? then {n} else {}) + locals)
  {
    var inside := Plus(Entering(n, c), ops, copies, locals);
    if n.Operation? {
      assert (c.ops + ops) + [n] == c.ops + (ops + [n]);
    }
    assert ops + [] == ops && [] + copies == copies;
  }

  /** The visitor succeeds exactly on supported trees, and then adds the operations
      in post-order, the copies in pre-order and the set of symbols. */
  lemma {:induction false} VisitAllCollects(ns: seq<Node>, c: Collected)
    ensures VisitAll(ns, c).ok <==> SupportedAll(ns)
    ensures SupportedAll(ns) ==> VisitAll(ns, c).collected == Plus(c, PostOrderAll(ns), CopiesAll(ns), SymbolsAll(ns))
    decreases SizeAll(ns), |ns| + 1
  {
    if ns == [] {
      assert Plus(c, [], [], {}) == c;
    } else {
      VisitCollects(ns[0], c);
      if Supported(ns[0]) {
        var first := Visit(ns[0], c).collected;
        VisitAllCollects(ns[1..], first);
        PlusPlus(c, PostOrder(ns[0]), Copies(ns[0]), Symbols(ns[0]),
                 PostOrderAll(ns[1..]), CopiesAll(ns[1..]), SymbolsAll(ns[1..]));
      }
    }
  }

  lemma {:induction false} PlusPlus(
    c: Collected, ops: seq<Node>, copies: seq<Node>, locals: set<Node>, ops': seq<Node>, copies': seq<Node>,
    locals': set<Node>)
    ensures Plus(Plus(c, ops, copies, locals), ops', copies', locals')
         == Plus(c, ops + ops', copies + copies', locals + locals')
  {
    assert (c.ops + ops) + ops' == c.ops + (ops + ops');
    assert (c.copies + copies) + copies' == c.copies + (copies + copies');
    assert (c.locals + locals) + locals' == c.locals + (locals + locals');
  }

  // ---------------------------------------------------------- what occurs

  /** A node occurs in a tree: as its root, or in one of the places where nodes of
      that kind hold others. A code object inside a tree is a leaf. */
  ghost predicate Occurs(x: Node, n: Node)
    decreases n
  {
    || x == n
    || match n
       case Items(items) => OccursAmong(x, items)
       case InputBlock(inputs) => exists k :: 0 <= k < |inputs| && Occurs(x, inputs[k].lcl)
       case OutputBlock(outputs) => exists k :: 0 <= k < |outputs| && Occurs(x, outputs[k].expr)
       case Assign(_, expr, targets) => Occurs(x, expr) || OccursAmong(x, targets)
       case Operation(_, children) => OccursAmong(x, children)
       case Structure(_, children) => OccursAmong(x, children)
       case _ => false
  }

  ghost predicate OccursAmong(x: Node, ns: seq<Node>)
    decreases ns
  {
    exists k :: 0 <= k < |ns| && Occurs(x, ns[k])
  }

  /** A node occurs below the root of a collection, whose own parts are entered
      even when it is a code object. */
  ghost predicate OccursBelow(x: Node, root: Node) {
    match root
    case Code(_, parts) => OccursAmong(x, parts)
    case Items(items) => OccursAmong(x, items)
    case InputBlock(inputs) => exists k :: 0 <= k < |inputs| && Occurs(x, inputs[k].lcl)
    case OutputBlock(outputs) => exists k :: 0 <= k < |outputs| && Occurs(x, outputs[k].expr)
    case Assign(_, expr, targets) => Occurs(x, expr) || OccursAmong(x, targets)
    case Operation(_, children) => OccursAmong(x, children)
    case Structure(_, children) => OccursAmong(x, children)
    case _ => false
  }

  predicate IsSymbol(n: Node) { n.Local? || n.Existing? }

  /** The kinds of nodes that a collection is about. */
  predicate Matters(n: Node) {
    n.Operation? || (n.Assign? && n.expr.Local?) || IsSymbol(n) || n.Foreign?
  }

  lemma {:induction false} InputsAt(inputs: seq<Input>)
    ensures |InputLocals(inputs)| == |inputs|
    ensures forall k :: 0 <= k < |inputs| ==> InputLocals(inputs)[k] == inputs[k].lcl
  {
    if inputs != [] {
      InputsAt(inputs[1..]);
    }
  }

  lemma {:induction false} OutputsAt(outputs: seq<Output>)
    ensures |OutputExpressions(outputs)| == |outputs|
    ensures forall k :: 0 <= k < |outputs| ==> OutputExpressions(outputs)[k] == outputs[k].expr
  {
    if outputs != [] {
      OutputsAt(outputs[1..]);
    }
  }

  lemma {:induction false} AmongFirstOrRest(x: Node, ns: seq<Node>)
    requires ns != []
    ensures OccursAmong(x, ns) <==> Occurs(x, ns[0]) || OccursAmong(x, ns[1..])
  {
    assert forall k :: 0 < k < |ns| ==> ns[k] == ns[1..][k - 1];
    if OccursAmong(x, ns[1..]) {
      var k :| 0 <= k < |ns[1..]| && Occurs(x, ns[1..][k]);
      assert Occurs(x, ns[k + 1]);
    }
  }

  lemma {:induction false} OccursInInputs(x: Node, inputs: seq<Input>)
    ensures OccursAmong(x, InputLocals(inputs)) <==> exists k :: 0 <= k < |inputs| && Occurs(x, inputs[k].lcl)
  {
    InputsAt(inputs);
  }

  lemma {:induction false} OccursInOutputs(x: Node, outputs: seq<Output>)
    ensures OccursAmong(x, OutputExpressions(outputs)) <==>
              exists k :: 0 <= k < |outputs| && Occurs(x, outputs[k].expr)
  {
    OutputsAt(outputs);
  }

  lemma {:induction false} OccursInAssign(x: Node, expr: Node, targets: seq<Node>)
    ensures OccursAmong(x, [expr] + targets) <==> Occurs(x, expr) || OccursAmong(x, targets)
  {
    AmongFirstOrRest(x, [expr] + targets);
    assert ([expr] + targets)[1..] == targets;
  }

  /** A node occurs in a tree as its root or in what a visit goes on to. */
  lemma {:induction false} OccursInSubnodes(x: Node, n: Node)
    ensures Occurs(x, n) <==> x == n || OccursAmong(x, Subnodes(n))
  {
    match n
    case InputBlock(inputs) => OccursInInputs(x, inputs);
    case OutputBlock(outputs) => OccursInOutputs(x, outputs);
    case Assign(_, expr, targets) => OccursInAssign(x, expr, targets);
    case _ =>
  }

  /** What is collected is what occurs. */
  lemma {:induction false} CollectedOccurs(x: Node, n: Node)
    ensures x in PostOrder(n) <==> x.Operation? && Occurs(x, n)
    ensures x in Copies(n) <==> x.Assign? && x.expr.Local? && Occurs(x, n)
    ensures x in Symbols(n) <==> (x.Local? || x.Existing?) && Occurs(x, n)
    ensures x.Foreign? && Supported(n) ==> !Occurs(x, n)
    decreases Size(n), 0
  {
    OccursInSubnodes(x, n);
    CollectedOccursAmong(x, Subnodes(n));
  }

  lemma {:induction false} CollectedOccursAmong(x: Node, ns: seq<Node>)
    ensures x in PostOrderAll(ns) <==> x.Operation? && OccursAmong(x, ns)
    ensures x in CopiesAll(ns) <==> x.Assign? && x.expr.Local? && OccursAmong(x, ns)
    ensures x in SymbolsAll(ns) <==> (x.Local? || x.Existing?) && OccursAmong(x, ns)
    ensures x.Foreign? && SupportedAll(ns) ==> !OccursAmong(x, ns)
    decreases SizeAll(ns), |ns| + 1
  {
    if ns != [] {
      AmongFirstOrRest(x, ns);
      CollectedOccurs(x, ns[0]);
      CollectedOccursAmong(x, ns[1..]);
    }
  }

  /** In a tree that is not supported some foreign value occurs. */
  lemma {:induction false} UnsupportedOccurs(n: Node) returns (x: Node)
    requires !Supported(n)
    ensures x.Foreign? && Occurs(x, n)
    decreases Size(n), 0
  {
    if n.Foreign? {
      x := n;
    } else {
      x := UnsupportedOccursAmong(Subnodes(n));
      OccursInSubnodes(x, n);
    }
  }

  lemma {:induction false} UnsupportedOccursAmong(ns: seq<Node>) returns (x: Node)
    requires !SupportedAll(ns)
    ensures x.Foreign? && OccursAmong(x, ns)
    decreases SizeAll(ns), |ns| + 1
  {
    if !Supported(ns[0]) {
      x := UnsupportedOccurs(ns[0]);
    } else {
      x := UnsupportedOccursAmong(ns[1..]);
      AmongFirstOrRest(x, ns);
    }
  }

  /** The forced visit of an input or output reaches what it holds, beside names. */
  lemma {:induction false} OccursInPair(x: Node, first: Node, second: Node)
    requires Matters(x) && (first.Leaf? || second.Leaf?)
    ensures Occurs(x, Structure(0, [first, second])) <==> Occurs(x, first) || Occurs(x, second)
    ensures first.Leaf? ==> !Occurs(x, first)
    ensures second.Leaf? ==> !Occurs(x, second)
  {
    var pair := [first, second];
    assert pair[0] == first && pair[1] == second;
    assert Occurs(x, Structure(0, pair)) <==> OccursAmong(x, pair);
  }

  /** What the forced visit of the root reaches is what occurs below it, as far as
      a collection is concerned. */
  lemma {:induction false} OccursInForced(x: Node, root: Node)
    requires Matters(x)
    ensures OccursAmong(x, ForcedChildren(root)) <==> OccursBelow(x, root)
  {
    match root
    case InputBlock(inputs) =>
      var ns := ForcedChildren(root);
      forall k | 0 <= k < |inputs|
        ensures Occurs(x, ns[k]) <==> Occurs(x, inputs[k].lcl)
      {
        OccursInPair(x, Leaf(inputs[k].src), inputs[k].lcl);
      }
    case OutputBlock(outputs) =>
      var ns := ForcedChildren(root);
      forall k | 0 <= k < |outputs|
        ensures Occurs(x, ns[k]) <==> Occurs(x, outputs[k].expr)
      {
        OccursInPair(x, outputs[k].expr, Leaf(outputs[k].dst));
      }
    case Assign(_, expr, targets) => OccursInAssign(x, expr, targets);
    case _ =>
  }

  /** The order of operations, for each kind of node: those of its parts in the
      order of the parts, and the node itself, if an operation, behind them. */
  lemma {:induction false} OperationOrder(n: Node)
    ensures PostOrder(n) ==
              match n
              case Items(items) => PostOrderAll(items)
              case InputBlock(inputs) => PostOrderAll(seq(|inputs|, k requires 0 <= k < |inputs| => inputs[k].lcl))
              case OutputBlock(outputs) =>
                PostOrderAll(seq(|outputs|, k requires 0 <= k < |outputs| => outputs[k].expr))
              case Assign(_, expr, targets) => PostOrder(expr) + PostOrderAll(targets)
              case Operation(_, children) => PostOrderAll(children) + [n]
              case Structure(_, children) => PostOrderAll(children)
              case _ => []
  {
    match n
    case InputBlock(inputs) =>
      InputsAt(inputs);
      assert InputLocals(inputs) == seq(|inputs|, k requires 0 <= k < |inputs| => inputs[k].lcl);
    case OutputBlock(outputs) =>
      OutputsAt(outputs);
      assert OutputExpressions(outputs) == seq(|outputs|, k requires 0 <= k < |outputs| => outputs[k].expr);
    case Assign(_, expr, targets) => assert ([expr] + targets)[1..] == targets;
    case _ =>
  }

  /** The order of copies: a copy in front of what its parts hold. */
  lemma {:induction false} CopyOrder(n: Node)
    ensures Copies(n) ==
              match n
              case Items(items) => CopiesAll(items)
              case InputBlock(inputs) => CopiesAll(seq(|inputs|, k requires 0 <= k < |inputs| => inputs[k].lcl))
              case OutputBlock(outputs) =>
                CopiesAll(seq(|outputs|, k requires 0 <= k < |outputs| => outputs[k].expr))
              case Assign(_, Local(_), targets) => [n] + CopiesAll(targets)
              case Assign(_, expr, targets) => Copies(expr) + CopiesAll(targets)
              case Operation(_, children) => CopiesAll(children)
              case Structure(_, children) => CopiesAll(children)
              case _ => []
  {
    match n
    case InputBlock(inputs) =>
      InputsAt(inputs);
      assert InputLocals(inputs) == seq(|inputs|, k requires 0 <= k < |inputs| => inputs[k].lcl);
    case OutputBlock(outputs) =>
      OutputsAt(outputs);
      assert OutputExpressions(outputs) == seq(|outputs|, k requires 0 <= k < |outputs| => outputs[k].expr);
    case Assign(_, expr, targets) =>
      assert ([expr] + targets)[1..] == targets;
      assert Copies(expr) == [] || !expr.Local?;
    case _ =>
  }

  // ------------------------------------------------------------ pending visits

  /** A node still to visit, or an operation whose children are done. */
  datatype Pending = Pending(node: Node, emit: bool)

  function ReversedPending(ns: seq<Node>): seq<Pending> {
    if ns == [] then [] else ReversedPending(ns[1..]) + [Pending(ns[0], false)]
  }

  /** What emptying the stack from its end does, told by the recursive visitor. */
  function Drain(pending: seq<Pending>, c: Collected): Visited {
    if pending == [] then Visited(c, true)
    else
      var top, rest := pending[|pending| - 1], pending[..|pending| - 1];
      if top.emit then Drain(rest, c.(ops := c.ops + [top.node]))
      else
        var first := Visit(top.node, c);
        if first.ok then Drain(rest, first.collected) else first
  }

  function Weight(pending: seq<Pending>): nat {
    if pending == [] then 0
    else
      var top := pending[|pending| - 1];
      Weight(pending[..|pending| - 1]) + if top.emit then 1 else 2 * Size(top.node)
  }

  /** Pushing nodes in reverse visits them in order before the rest of the stack. */
  lemma {:induction false} PushedAreVisited(rest: seq<Pending>, ns: seq<Node>, c: Collected)
    ensures var inner := VisitAll(ns, c);
            Drain(rest + ReversedPending(ns), c) == if inner.ok then Drain(rest, inner.collected) else inner
    ensures Weight(rest + ReversedPending(ns)) == Weight(rest) + 2 * SizeAll(ns)
    decreases |ns|
  {
    if ns == [] {
      assert rest + [] == rest;
    } else {
      var stack := rest + ReversedPending(ns);
      assert stack[..|stack| - 1] == rest + ReversedPending(ns[1..]);
      assert stack[|stack| - 1] == Pending(ns[0], false);
      var first := Visit(ns[0], c);
      PushedAreVisited(rest, ns[1..], first.collected);
    }
  }

  /** Replacing a node by its pushed parts does what visiting the node does. */
  lemma {:induction false} ExpandedAreVisited(rest: seq<Pending>, n: Node, c: Collected)
    requires !n.Foreign?
    ensures var marked := if n.Operation? then rest + [Pending(n, true)] else rest;
            var stack := marked + ReversedPending(Subnodes(n));
            && Drain(rest + [Pending(n, false)], c) == Drain(stack, Entering(n, c))
            && Weight(stack) < Weight(rest + [Pending(n, false)])
  {
    var marked := if n.Operation? then rest + [Pending(n, true)] else rest;
    var before := rest + [Pending(n, false)];
    assert before[..|before| - 1] == rest && before[|before| - 1] == Pending(n, false);
    if n.Operation? {
      assert marked[..|marked| - 1] == rest && marked[|marked| - 1] == Pending(n, true);
    }
    PushedAreVisited(marked, Subnodes(n), Entering(n, c));
  }

  /** What taking the top of the stack does. */
  lemma {:induction false} TopIsVisited(pending: seq<Pending>, c: Collected)
    requires pending != []
    ensures var top, rest := pending[|pending| - 1], pending[..|pending| - 1];
            if top.emit then
              Drain(pending, c) == Drain(rest, c.(ops := c.ops + [top.node])) && Weight(rest) < Weight(pending)
            else if top.node.Foreign? then Drain(pending, c) == Visited(c, false)
            else
              var marked := if top.node.Operation? then rest + [Pending(top.node, true)] else rest;
              var stack := marked + ReversedPending(Subnodes(top.node));
              Drain(pending, c) == Drain(stack, Entering(top.node, c)) && Weight(stack) < Weight(pending)
  {
    var top, rest := pending[|pending| - 1], pending[..|pending| - 1];
    assert pending == rest + [top];
    if !top.emit && !top.node.Foreign? {
      ExpandedAreVisited(rest, top.node, c);
    }
  }

  // ------------------------------------------------------------- the collector

  class GetOps {
    var ops: seq<Node>
    var copies: seq<Node>
    var locals: set<Node>

    constructor ()
      ensures ops == [] && copies == [] && locals == {}
    {
      ops, copies, locals := [], [], {};
    }

    function State(): Collected
      reads this
    {
      Collected(ops, copies, locals)
    }

    /** The recursive dispatcher. */
    method Dispatch(n: Node) returns (ok: bool)
      modifies this
      ensures Visited(State(), ok) == Visit(n, old(State()))
      decreases Size(n), 0
    {
      if n.Foreign? {
        return false;
      }
      if n.Local? || n.Existing? {
        locals := locals + {n};
      } else if IsCopy(n) {
        copies := copies + [n];
      }
      ok := DispatchAll(Subnodes(n));
      if ok && n.Operation? {
        ops := ops + [n];
      }
    }

    method DispatchAll(ns: seq<Node>) returns (ok: bool)
      modifies this
      ensures Visited(State(), ok) == VisitAll(ns, old(State()))
      decreases SizeAll(ns), |ns| + 1
    {
      if ns == [] {
        return true;
      }
      ok := Dispatch(ns[0]);
      if ok {
        ok := DispatchAll(ns[1..]);
      }
    }

    /** The loop over the explicit stack ends on every finite tree, with exactly
        what the recursive visitor collects from the root's children, or with the
        same type error at the same point. */
    method Process(root: Node) returns (ok: bool)
      modifies this
      ensures Visited(State(), ok) == VisitAll(ForcedChildren(root), old(State()))
    {
      var pending := ReversedPending(ForcedChildren(root));
      PushedAreVisited([], ForcedChildren(root), State());
      assert [] + pending == pending;
      while pending != []
        invariant Drain(pending, State()) == VisitAll(ForcedChildren(root), old(State()))
        decreases Weight(pending)
      {
        TopIsVisited(pending, State());
        var top := pending[|pending| - 1];
        pending := pending[..|pending| - 1];
        if top.emit {
          ops := ops + [top.node];
        } else {
          var current := top.node;
          if current.Foreign? {
            return false;
          }
          if current.Local? || current.Existing? {
            locals := locals + {current};
          } else if IsCopy(current) {
            copies := copies + [current];
          }
          if current.Operation? {
            pending := pending + [Pending(current, true)];
          }
          pending := pending + ReversedPending(Subnodes(current));
        }
      }
      ok := true;
    }
  }

  lemma {:induction false} CollectedOccursBelow(root: Node)
    ensures var ns := ForcedChildren(root);
            && (SupportedAll(ns) <==> forall x: Node :: OccursBelow(x, root) ==> !x.Foreign?)
            && (forall x: Node :: x in PostOrderAll(ns) <==> x.Operation? && OccursBelow(x, root))
            && (forall x: Node :: x in CopiesAll(ns) <==> x.Assign? && x.expr.Local? && OccursBelow(x, root))
            && (forall x: Node :: x in SymbolsAll(ns) <==> (x.Local? || x.Existing?) && OccursBelow(x, root))
  {
    var ns := ForcedChildren(root);
    forall x: Node
      ensures x in PostOrderAll(ns) <==> x.Operation? && OccursBelow(x, root)
      ensures x in CopiesAll(ns) <==> x.Assign? && x.expr.Local? && OccursBelow(x, root)
      ensures x in SymbolsAll(ns) <==> (x.Local? || x.Existing?) && OccursBelow(x, root)
      ensures x.Foreign? && SupportedAll(ns) ==> !OccursBelow(x, root)
    {
      CollectedOccursAmong(x, ns);
      if Matters(x) {
        OccursInForced(x, root);
      }
    }
    if !SupportedAll(ns) {
      var x := UnsupportedOccursAmong(ns);
      OccursInForced(x, root);
    }
  }

  /** `getAll`: a supported tree's operations in post-order, its symbols and its
      copies in pre-order. */
  method GetAll(root: Node) returns (ok: bool, ops: seq<Node>, locals: set<Node>, copies: seq<Node>)
    ensures ok <==> SupportedAll(ForcedChildren(root))
    ensures ok ==> ops == PostOrderAll(ForcedChildren(root)) && copies == CopiesAll(ForcedChildren(root))
    ensures ok ==> locals == SymbolsAll(ForcedChildren(root))
    ensures ok <==> forall x: Node :: OccursBelow(x, root) ==> !x.Foreign?
    ensures ok ==> forall x: Node :: x in ops <==> x.Operation? && OccursBelow(x, root)
    ensures ok ==> forall x: Node :: x in copies <==> x.Assign? && x.expr.Local? && OccursBelow(x, root)
    ensures ok ==> forall x: Node :: x in locals <==> (x.Local? || x.Existing?) && OccursBelow(x, root)
  {
    CollectedOccursBelow(root);
    var collector := new GetOps();
    ok := collector.Process(root);
    VisitAllCollects(ForcedChildren(root), Collected([], [], {}));
    ops, locals, copies := collector.ops, collector.locals, collector.copies;
  }
}
