/** Call lowering preserves meaning (src/pyflow/optimization/callconverter.py),
    except that setters evaluate their value last instead of first: harmless when
    the operands do not interfere, observable when they do. */
module LoweringMeaning {
  import opened Wrappers
  import opened CallLowering

  /** The intrinsic picked for an operator, if any, does what the operator does to
      these operands, in the running function and heap given. */
  ghost predicate DenotesAt(
    i: Interpretation, x: Exports, self: Option<LocalId>, op: Operator, values: seq<Value>, running: Value, heap: Heap)
  {
    var e := ExportFor(x, self, op, |values|);
    var implicit := if IsGlobal(op) && self.Some? then [running] else [];
    e.Use? ==>
      i.direct(e.code, Positional(|implicit| + |values|), implicit + CallOrder(op, values), heap)
      == i.operate(op, implicit + values, heap)
  }

  /** A code does what an operator does to these operands: it gets them in order,
      except that a setter's value comes last, after the running function where a
      global is accessed in one that has its own local. */
  ghost predicate DoesTheSame(
    i: Interpretation, code: CodeId, self: Option<LocalId>, op: Operator, values: seq<Value>, running: Value,
    heap: Heap)
  {
    var own := if (op.GetGlobal? || op.SetGlobal?) && self.Some? then [running] else [];
    var setting := (op.SetAttr? || op.SetSubscript?) && |values| == 3;
    var args := if setting then [values[1], values[2], values[0]] else values;
    i.direct(code, Shape(false, |own| + |values|, [], false, false), own + args, heap)
      == i.operate(op, own + values, heap)
  }

  /** Every export does what the operator that its name stands for does. */
  ghost predicate Denotes(i: Interpretation, x: Exports, self: Option<LocalId>) {
    forall name, op, values: seq<Value>, running, heap :: name in x && Names(name, op, |values|) ==>
      DoesTheSame(i, x[name], self, op, values, running, heap)
  }

  /** So the intrinsic that lowering picks does what the operator does. */
  lemma {:induction false} PickedDenotes(
    i: Interpretation, x: Exports, self: Option<LocalId>, op: Operator, values: seq<Value>, running: Value, heap: Heap)
    requires Denotes(i, x, self)
    ensures DenotesAt(i, x, self, op, values, running, heap)
  {
    ExportForExactly(x, self, op, |values|);
    var e := ExportFor(x, self, op, |values|);
    if e.Use? {
      var name :| name in x && Names(name, op, |values|) && x[name] == e.code;
      InCallOrderTheSame(i, x[name], self, op, values, running, heap);
    }
  }

  lemma {:induction false} InCallOrderTheSame(
    i: Interpretation, code: CodeId, self: Option<LocalId>, op: Operator, values: seq<Value>, running: Value,
    heap: Heap)
    requires DoesTheSame(i, code, self, op, values, running, heap)
    ensures var own := if IsGlobal(op) && self.Some? then [running] else [];
            i.direct(code, Positional(|own| + |values|), own + CallOrder(op, values), heap)
            == i.operate(op, own + values, heap)
  {
  }

  // ------------------------------------------------- locals that stay the same

  function Ids(targets: seq<LocalId>): set<LocalId> {
    set t | t in targets
  }

  /** The locals a tree may bind. */
  function Assigned(n: Node): set<LocalId>
    decreases n
  {
    match n
    case Apply(op, operands) => (if op.UnpackSequence? then Ids(op.targets) else {}) + AssignedAll(operands)
    case Structure(form, children) =>
      (if form.NamedExpr? then {form.target} else if form.Assign? then Ids(form.lcls) else {}) + AssignedAll(children)
    case _ => {}
  }

  function AssignedAll(ns: seq<Node>): set<LocalId>
    decreases ns
  {
    if ns == [] then {} else Assigned(ns[0]) + AssignedAll(ns[1..])
  }

  lemma {:induction false} AssignedEach(ns: seq<Node>, k: nat)
    requires k < |ns|
    ensures Assigned(ns[k]) <= AssignedAll(ns)
  {
    if k > 0 {
      AssignedEach(ns[1..], k - 1);
    }
  }

  /** No local is unbound, and those outside the set are as before. */
  ghost predicate Keeps(ids: set<LocalId>, s: Store, o: Outcome) {
    o.OutOfFuel? || (s.env.Keys <= o.store.env.Keys && forall id :: id !in ids ==> SameLocal(id, s.env, o.store.env))
  }

  predicate SameLocal(id: LocalId, before: Env, after: Env) {
    (id in before <==> id in after) && (id in before ==> before[id] == after[id])
  }

  lemma {:induction false} KeepsMore(ids: set<LocalId>, more: set<LocalId>, s: Store, o: Outcome)
    requires Keeps(ids, s, o) && ids <= more
    ensures Keeps(more, s, o)
  {
  }

  lemma {:induction false} KeepsThen(ids: set<LocalId>, s: Store, first: Outcome, second: Outcome)
    requires !first.OutOfFuel? && Keeps(ids, s, first) && Keeps(ids, first.store, second)
    ensures Keeps(ids, s, second)
  {
  }

  lemma {:induction false} BoundKeeps(env: Env, targets: seq<LocalId>, values: seq<Value>, id: LocalId)
    requires |targets| == |values| && id !in targets
    ensures SameLocal(id, env, Bound(env, targets, values))
    decreases |targets|
  {
    if targets != [] {
      BoundKeeps(env[targets[0] := values[0]], targets[1..], values[1..], id);
    }
  }

  lemma {:induction false} BoundGrows(env: Env, targets: seq<LocalId>, values: seq<Value>)
    requires |targets| == |values|
    ensures env.Keys <= Bound(env, targets, values).Keys
    decreases |targets|
  {
    if targets != [] {
      BoundGrows(env[targets[0] := values[0]], targets[1..], values[1..]);
    }
  }

  lemma {:induction false} BindKeeps(targets: seq<LocalId>, values: seq<Value>, s: Store)
    ensures Keeps(Ids(targets), s, Bind(targets, values, s))
  {
    if |targets| == |values| {
      BoundGrows(s.env, targets, values);
      forall id | id !in targets
        ensures SameLocal(id, s.env, Bound(s.env, targets, values))
      {
        BoundKeeps(s.env, targets, values, id);
      }
    }
  }

  lemma {:induction false} CompleteKeeps(op: Operator, e: Effect, s: Store)
    ensures Keeps(if op.UnpackSequence? then Ids(op.targets) else {}, s, Complete(op, Performed(e, s)))
  {
    if op.UnpackSequence? && e.Results? {
      BindKeeps(op.targets, e.values, s.(heap := e.heap));
    }
  }

  /** Evaluating a tree unbinds no local and changes none that it does not bind. */
  lemma {:induction false} EvalKeeps(i: Interpretation, self: Option<LocalId>, fuel: nat, s: Store, n: Node)
    ensures Keeps(Assigned(n), s, Eval(i, self, fuel, s, n))
    decreases fuel, 1, n, 1
  {
    match n
    case Apply(op, operands) =>
      AllKeep(i, self, fuel, s, operands, Assigned(n));
      var o := EvalAll(i, self, fuel, s, operands);
      var implicit := Implicit(op, self, s);
      if implicit.Done? && o.Done? {
        var e := i.operate(op, implicit.values + o.values, o.store.heap);
        CompleteKeeps(op, e, o.store);
        KeepsThen(Assigned(n), s, o, Complete(op, Performed(e, o.store)));
      }
    case Structure(form, c) =>
      if ArityOk(form, |c|) {
        StructureKeeps(i, self, fuel, s, form, c);
      }
    case _ =>
  }

  lemma {:induction false} ChildKeeps(
    i: Interpretation, self: Option<LocalId>, fuel: nat, s: Store, form: Form, c: seq<Node>, k: nat)
    requires k < |c|
    ensures Keeps(Assigned(Structure(form, c)), s, Eval(i, self, fuel, s, c[k]))
    decreases fuel, 1, c, 1
  {
    EvalKeeps(i, self, fuel, s, c[k]);
    AssignedEach(c, k);
    KeepsMore(Assigned(c[k]), Assigned(Structure(form, c)), s, Eval(i, self, fuel, s, c[k]));
  }

  lemma {:induction false} StructureKeeps(
    i: Interpretation, self: Option<LocalId>, fuel: nat, s: Store, form: Form, c: seq<Node>)
    requires ArityOk(form, |c|)
    ensures Keeps(Assigned(Structure(form, c)), s, Eval(i, self, fuel, s, Structure(form, c)))
    decreases fuel, 1, Structure(form, c), 0
  {
    var ids := Assigned(Structure(form, c));
    match form
    case Invocation(_, _) => AllKeep(i, self, fuel, s, c, ids);
    case DirectCall(_, _) => AllKeep(i, self, fuel, s, c, ids);
    case Return => AllKeep(i, self, fuel, s, c, ids);
    case ShortCircuit(stopOn) => TermsKeep(i, self, fuel, s, stopOn, c, ids);
    case Suite => SuiteKeeps(i, self, fuel, s, c, ids);
    case Break =>
    case Continue =>
    case NamedExpr(_) => ChildKeeps(i, self, fuel, s, form, c, 0);
    case Discard => ChildKeeps(i, self, fuel, s, form, c, 0);
    case Assign(lcls) =>
      ChildKeeps(i, self, fuel, s, form, c, 0);
      var o := Eval(i, self, fuel, s, c[0]);
      if o.Done? {
        BindKeeps(lcls, o.values, o.store);
        KeepsThen(ids, s, o, Bind(lcls, o.values, o.store));
      }
    case While => LoopKeeps(i, self, fuel, s, c);
    case _ =>
      ChildKeeps(i, self, fuel, s, form, c, 0);
      var o := Eval(i, self, fuel, s, c[0]);
      if o.Done? {
        forall k | 1 <= k < |c|
          ensures Keeps(ids, s, Eval(i, self, fuel, o.store, c[k]))
        {
          ChildKeeps(i, self, fuel, o.store, form, c, k);
          KeepsThen(ids, s, o, Eval(i, self, fuel, o.store, c[k]));
        }
      }
  }

  lemma {:induction false} LoopKeeps(i: Interpretation, self: Option<LocalId>, fuel: nat, s: Store, c: seq<Node>)
    requires |c| == 2
    ensures Keeps(Assigned(Structure(While, c)), s, Eval(i, self, fuel, s, Structure(While, c)))
    decreases fuel, 1, c, 2
  {
    var ids := Assigned(Structure(While, c));
    ChildKeeps(i, self, fuel, s, While, c, 0);
    var o := Eval(i, self, fuel, s, c[0]);
    if o.Done? {
      ChildKeeps(i, self, fuel, o.store, While, c, 1);
      var body := Eval(i, self, fuel, o.store, c[1]);
      if (body.Done? || body.Continuing?) && fuel > 0 {
        EvalKeeps(i, self, fuel - 1, body.store, Structure(While, c));
      }
    }
  }

  lemma {:induction false} AllKeep(
    i: Interpretation, self: Option<LocalId>, fuel: nat, s: Store, ns: seq<Node>, ids: set<LocalId>)
    requires AssignedAll(ns) <= ids
    ensures Keeps(ids, s, EvalAll(i, self, fuel, s, ns))
    decreases fuel, 1, ns, 0
  {
    if ns != [] {
      EvalKeeps(i, self, fuel, s, ns[0]);
      KeepsMore(Assigned(ns[0]), ids, s, Eval(i, self, fuel, s, ns[0]));
      var first := One(Eval(i, self, fuel, s, ns[0]));
      if first.Done? {
        AllKeep(i, self, fuel, first.store, ns[1..], ids);
        KeepsThen(ids, s, first, EvalAll(i, self, fuel, first.store, ns[1..]));
      }
    }
  }

  lemma {:induction false} SuiteKeeps(
    i: Interpretation, self: Option<LocalId>, fuel: nat, s: Store, ns: seq<Node>, ids: set<LocalId>)
    requires AssignedAll(ns) <= ids
    ensures Keeps(ids, s, EvalSuite(i, self, fuel, s, ns))
    decreases fuel, 1, ns, 0
  {
    if ns != [] {
      EvalKeeps(i, self, fuel, s, ns[0]);
      KeepsMore(Assigned(ns[0]), ids, s, Eval(i, self, fuel, s, ns[0]));
      var first := Eval(i, self, fuel, s, ns[0]);
      if first.Done? {
        SuiteKeeps(i, self, fuel, first.store, ns[1..], ids);
        KeepsThen(ids, s, first, EvalSuite(i, self, fuel, first.store, ns[1..]));
      }
    }
  }

  lemma {:induction false} TermsKeep(
    i: Interpretation, self: Option<LocalId>, fuel: nat, s: Store, stopOn: bool, ns: seq<Node>, ids: set<LocalId>)
    requires AssignedAll(ns) <= ids
    ensures Keeps(ids, s, EvalTerms(i, self, fuel, s, stopOn, ns))
    decreases fuel, 1, ns, 0
  {
    if ns != [] {
      EvalKeeps(i, self, fuel, s, ns[0]);
      KeepsMore(Assigned(ns[0]), ids, s, Eval(i, self, fuel, s, ns[0]));
      var first := One(Eval(i, self, fuel, s, ns[0]));
      if first.Done? && |ns| > 1 {
        TermsKeep(i, self, fuel, first.store, stopOn, ns[1..], ids);
        KeepsThen(ids, s, first, EvalTerms(i, self, fuel, first.store, stopOn, ns[1..]));
      }
    }
  }

  // ----------------------------------------------------------- setter operands

  /** A reference: evaluating it changes nothing, and fails only when its local
      is not bound. */
  predicate Quiet(n: Node) { n.Local? || n.Existing? || n.DoNotCare? }

  predicate QuietAll(ns: seq<Node>) { forall n :: n in ns ==> Quiet(n) }

  /** A reference, or a call whose parts are references: what operands are once
      nested expressions have been given names. */
  predicate Simple(n: Node) {
    Quiet(n) || (n.Structure? && n.form.Invocation? && QuietAll(n.children))
  }

  /** The locals a tree reads. */
  function Reads(n: Node): set<LocalId>
    decreases n
  {
    match n
    case Local(id) => {id}
    case Apply(_, operands) => ReadsAll(operands)
    case Structure(_, children) => ReadsAll(children)
    case _ => {}
  }

  function ReadsAll(ns: seq<Node>): set<LocalId>
    decreases ns
  {
    if ns == [] then {} else Reads(ns[0]) + ReadsAll(ns[1..])
  }

  /** What the other operands read before they perform a call. */
  function EarlyReads(owner: Node, name: Node): set<LocalId> {
    Reads(owner) + if Quiet(owner) then Reads(name) else {}
  }

  /** For simple operands, when these locals are bound: nobody can tell whether the
      value was evaluated first or last. Two calls always show. One call shows
      exactly when a reference on the other side may fail before it in one order
      and after it in the other. */
  predicate OrderHidden(bound: set<LocalId>, value: Node, owner: Node, name: Node) {
    if Quiet(value) then (Quiet(owner) && Quiet(name)) || Reads(value) <= bound + EarlyReads(owner, name)
    else Quiet(owner) && Quiet(name) && Reads(owner) + Reads(name) <= bound + Reads(value)
  }

  /** The value operand of a setter and its other operands do not interfere: they
      are simple and hide their order, or one side only reads bound locals that
      the other does not bind anew. */
  predicate Independent(bound: set<LocalId>, value: Node, owner: Node, name: Node) {
    || (Simple(value) && Simple(owner) && Simple(name) && OrderHidden(bound, value, owner, name))
    || (Quiet(value) && Reads(value) <= bound - Assigned(owner) - Assigned(name))
    || (Quiet(owner) && Quiet(name) && Reads(owner) + Reads(name) <= bound - Assigned(value))
  }

  predicate IsSetter(op: Operator) { op.SetAttr? || op.SetSubscript? }

  /** Every setter in the tree has independent operands, given that these locals
      are bound when the tree is entered. */
  predicate Orderly(bound: set<LocalId>, n: Node)
    decreases n
  {
    match n
    case Apply(op, operands) =>
      && OrderlyAll(bound, operands)
      && (IsSetter(op) && |operands| == 3 ==> Independent(bound, operands[0], operands[1], operands[2]))
    case Structure(_, children) => OrderlyAll(bound, children)
    case _ => true
  }

  predicate OrderlyAll(bound: set<LocalId>, ns: seq<Node>)
    decreases ns
  {
    ns != [] ==> Orderly(bound, ns[0]) && OrderlyAll(bound, ns[1..])
  }

  lemma {:induction false} OrderlyEach(bound: set<LocalId>, ns: seq<Node>, k: nat)
    requires OrderlyAll(bound, ns) && k < |ns|
    ensures Orderly(bound, ns[k])
  {
    if k > 0 {
      OrderlyEach(bound, ns[1..], k - 1);
    }
  }

  function EvalTwo(i: Interpretation, self: Option<LocalId>, fuel: nat, s: Store, b: Node, c: Node): (o: Outcome)
    ensures o.Done? ==> |o.values| == 2
  {
    var (vb, s2) :- One(Eval(i, self, fuel, s, b));
    var (vc, s3) :- One(Eval(i, self, fuel, s2, c));
    Done([vb[0], vc[0]], s3)
  }

  /** Three nodes one after the other. */
  function EvalThree(
    i: Interpretation, self: Option<LocalId>, fuel: nat, s: Store, a: Node, b: Node, c: Node): Outcome
  {
    var (va, s1) :- One(Eval(i, self, fuel, s, a));
    var rest := EvalTwo(i, self, fuel, s1, b, c);
    if rest.Done? then Done([va[0], rest.values[0], rest.values[1]], rest.store) else rest
  }

  lemma {:induction false} EvalAllOne(i: Interpretation, self: Option<LocalId>, fuel: nat, s: Store, c: Node)
    ensures EvalAll(i, self, fuel, s, [c]) == One(Eval(i, self, fuel, s, c))
  {
    assert [c][1..] == [];
    var z := One(Eval(i, self, fuel, s, c));
    if z.Done? {
      assert EvalAll(i, self, fuel, z.store, []) == Done([], z.store);
      assert z.values + [] == z.values;
    }
  }

  lemma {:induction false} EvalAllTwo(i: Interpretation, self: Option<LocalId>, fuel: nat, s: Store, b: Node, c: Node)
    ensures EvalAll(i, self, fuel, s, [b, c]) == EvalTwo(i, self, fuel, s, b, c)
  {
    assert [b, c][1..] == [c];
    var y := One(Eval(i, self, fuel, s, b));
    if y.Done? {
      EvalAllOne(i, self, fuel, y.store, c);
      var z := One(Eval(i, self, fuel, y.store, c));
      assert z.Done? ==> y.values + z.values == [y.values[0], z.values[0]];
    }
  }

  lemma {:induction false} EvalAllThree(
    i: Interpretation, self: Option<LocalId>, fuel: nat, s: Store, a: Node, b: Node, c: Node)
    ensures EvalAll(i, self, fuel, s, [a, b, c]) == EvalThree(i, self, fuel, s, a, b, c)
  {
    assert [a, b, c][1..] == [b, c];
    var x := One(Eval(i, self, fuel, s, a));
    if x.Done? {
      EvalAllTwo(i, self, fuel, x.store, b, c);
      var rest := EvalTwo(i, self, fuel, x.store, b, c);
      assert rest.Done? ==> x.values + rest.values == [x.values[0], rest.values[0], rest.values[1]];
    }
  }

  function Rotated(o: Outcome): Outcome {
    if o.Done? && |o.values| == 3 then Done([o.values[1], o.values[2], o.values[0]], o.store) else o
  }

  /** What a reference gives when its local is bound. */
  function QuietValue(env: Env, n: Node): Value
    requires Quiet(n) && Reads(n) <= env.Keys
  {
    match n
    case Local(id) => env[id]
    case Existing(value) => value
    case DoNotCare => DONT_CARE
  }

  lemma {:induction false} EvalQuiet(i: Interpretation, self: Option<LocalId>, fuel: nat, s: Store, n: Node)
    requires Quiet(n)
    ensures One(Eval(i, self, fuel, s, n))
         == if Reads(n) <= s.env.Keys then Done([QuietValue(s.env, n)], s) else Raised("unbound local", s)
  {
  }

  lemma {:induction false} EvalQuietParts(i: Interpretation, self: Option<LocalId>, fuel: nat, s: Store, ns: seq<Node>)
    requires QuietAll(ns)
    ensures var o := EvalAll(i, self, fuel, s, ns);
            if ReadsAll(ns) <= s.env.Keys then o.Done? && o.store == s else o == Raised("unbound local", s)
    decreases |ns|
  {
    if ns != [] {
      assert ns[0] in ns;
      EvalQuiet(i, self, fuel, s, ns[0]);
      EvalQuietParts(i, self, fuel, s, ns[1..]);
    }
  }

  /** A simple operand whose locals are bound keeps them; otherwise it fails before
      it has any effect. */
  lemma {:induction false} EvalSimple(i: Interpretation, self: Option<LocalId>, fuel: nat, s: Store, n: Node)
    requires Simple(n)
    ensures var o := One(Eval(i, self, fuel, s, n));
            if Reads(n) <= s.env.Keys then (o.Done? || o.Raised?) && o.store.env == s.env
            else o == Raised("unbound local", s)
  {
    if Quiet(n) {
      EvalQuiet(i, self, fuel, s, n);
    } else {
      EvalQuietParts(i, self, fuel, s, n.children);
    }
  }

  lemma {:induction false} TwoQuiet(i: Interpretation, self: Option<LocalId>, fuel: nat, s: Store, a: Node, b: Node)
    requires Quiet(a) && Quiet(b)
    ensures EvalTwo(i, self, fuel, s, a, b)
         == if Reads(a) + Reads(b) <= s.env.Keys then Done([QuietValue(s.env, a), QuietValue(s.env, b)], s)
            else Raised("unbound local", s)
  {
    EvalQuiet(i, self, fuel, s, a);
    EvalQuiet(i, self, fuel, s, b);
  }

  /** An unbound local among the early reads fails before any effect. */
  lemma {:induction false} EarlyFailure(i: Interpretation, self: Option<LocalId>, fuel: nat, s: Store, a: Node, b: Node)
    requires Simple(a) && Simple(b) && !(EarlyReads(a, b) <= s.env.Keys)
    ensures EvalTwo(i, self, fuel, s, a, b) == Raised("unbound local", s)
  {
    EvalSimple(i, self, fuel, s, a);
    if Quiet(a) && Reads(a) <= s.env.Keys {
      EvalQuiet(i, self, fuel, s, a);
      EvalSimple(i, self, fuel, s, b);
    }
  }

  lemma {:induction false} QuietKept(ids: set<LocalId>, s: Store, o: Outcome, n: Node)
    requires Quiet(n) && Reads(n) <= s.env.Keys - ids && Keeps(ids, s, o) && o.Done?
    ensures Reads(n) <= o.store.env.Keys && QuietValue(o.store.env, n) == QuietValue(s.env, n)
  {
    if n.Local? {
      assert n.id in Reads(n) && SameLocal(n.id, s.env, o.store.env);
    }
  }

  /** A bound reference is worth the same first and last, if the others keep it. */
  lemma {:induction false} BoundValueFirst(
    i: Interpretation, self: Option<LocalId>, fuel: nat, s: Store, value: Node, owner: Node, name: Node)
    requires Quiet(value) && Reads(value) <= s.env.Keys - Assigned(owner) - Assigned(name)
    ensures EvalThree(i, self, fuel, s, owner, name, value) == Rotated(EvalThree(i, self, fuel, s, value, owner, name))
  {
    EvalQuiet(i, self, fuel, s, value);
    TwoKeep(i, self, fuel, s, owner, name);
    var o := EvalTwo(i, self, fuel, s, owner, name);
    TwoThenOne(i, self, fuel, s, owner, name, value);
    if o.Done? {
      EvalQuiet(i, self, fuel, o.store, value);
      QuietKept(Assigned(owner) + Assigned(name), s, o, value);
      var v := QuietValue(s.env, value);
      assert o.values + [v] == [o.values[0], o.values[1], v];
    }
  }

  lemma {:induction false} TwoKeep(i: Interpretation, self: Option<LocalId>, fuel: nat, s: Store, a: Node, b: Node)
    ensures Keeps(Assigned(a) + Assigned(b), s, EvalTwo(i, self, fuel, s, a, b))
  {
    EvalKeeps(i, self, fuel, s, a);
    var o := One(Eval(i, self, fuel, s, a));
    if o.Done? {
      EvalKeeps(i, self, fuel, o.store, b);
    }
  }

  lemma {:induction false} BoundOthersFirst(
    i: Interpretation, self: Option<LocalId>, fuel: nat, s: Store, value: Node, owner: Node, name: Node)
    requires Quiet(owner) && Quiet(name) && Reads(owner) + Reads(name) <= s.env.Keys - Assigned(value)
    ensures EvalThree(i, self, fuel, s, owner, name, value) == Rotated(EvalThree(i, self, fuel, s, value, owner, name))
  {
    EvalKeeps(i, self, fuel, s, value);
    TwoQuiet(i, self, fuel, s, owner, name);
    TwoThenOne(i, self, fuel, s, owner, name, value);
    var o := One(Eval(i, self, fuel, s, value));
    if o.Done? {
      TwoQuiet(i, self, fuel, o.store, owner, name);
      QuietKept(Assigned(value), s, o, owner);
      QuietKept(Assigned(value), s, o, name);
      var v, w := QuietValue(s.env, owner), QuietValue(s.env, name);
      assert [v, w] + o.values == [v, w, o.values[0]];
    }
  }

  lemma {:induction false} SimpleAssignsNothing(n: Node)
    requires Simple(n)
    ensures Assigned(n) == {}
  {
    if !Quiet(n) {
      QuietAssignNothing(n.children);
    }
  }

  lemma {:induction false} QuietAssignNothing(ns: seq<Node>)
    requires QuietAll(ns)
    ensures AssignedAll(ns) == {}
    decreases |ns|
  {
    if ns != [] {
      assert ns[0] in ns;
      QuietAssignNothing(ns[1..]);
    }
  }

  /** An unbound reference as value fails at once, and so do the others when one
      of their early reads fails too, or when all are references. */
  lemma {:induction false} UnboundValueFirst(
    i: Interpretation, self: Option<LocalId>, fuel: nat, s: Store, value: Node, owner: Node, name: Node)
    requires Quiet(value) && Simple(owner) && Simple(name) && !(Reads(value) <= s.env.Keys)
    requires (Quiet(owner) && Quiet(name)) || !(EarlyReads(owner, name) <= s.env.Keys)
    ensures EvalThree(i, self, fuel, s, owner, name, value) == Rotated(EvalThree(i, self, fuel, s, value, owner, name))
  {
    EvalQuiet(i, self, fuel, s, value);
    if Quiet(owner) && Quiet(name) {
      EvalQuiet(i, self, fuel, s, owner);
      EvalQuiet(i, self, fuel, s, name);
    } else {
      EarlyFailure(i, self, fuel, s, owner, name);
      TwoThenOne(i, self, fuel, s, owner, name, value);
    }
  }

  lemma {:induction false} TwoThenOne(
    i: Interpretation, self: Option<LocalId>, fuel: nat, s: Store, a: Node, b: Node, c: Node)
    ensures var o := EvalTwo(i, self, fuel, s, a, b);
            EvalThree(i, self, fuel, s, a, b, c)
            == if !o.Done? then o
               else
                 var p := One(Eval(i, self, fuel, o.store, c));
                 if p.Done? then Done(o.values + p.values, p.store) else p
  {
  }

  lemma {:induction false} UnboundOthersFirst(
    i: Interpretation, self: Option<LocalId>, fuel: nat, s: Store, value: Node, owner: Node, name: Node)
    requires Simple(value) && Quiet(owner) && Quiet(name)
    requires !(Reads(owner) + Reads(name) <= s.env.Keys) && !(Reads(value) <= s.env.Keys)
    ensures EvalThree(i, self, fuel, s, owner, name, value) == Rotated(EvalThree(i, self, fuel, s, value, owner, name))
  {
    EvalSimple(i, self, fuel, s, value);
    TwoQuiet(i, self, fuel, s, owner, name);
    TwoThenOne(i, self, fuel, s, owner, name, value);
  }

  lemma {:induction false} SimpleFirstOrLast(
    bound: set<LocalId>, i: Interpretation, self: Option<LocalId>, fuel: nat, s: Store, value: Node, owner: Node,
    name: Node)
    requires Simple(value) && Simple(owner) && Simple(name) && OrderHidden(bound, value, owner, name)
    requires bound <= s.env.Keys
    ensures EvalThree(i, self, fuel, s, owner, name, value) == Rotated(EvalThree(i, self, fuel, s, value, owner, name))
  {
    SimpleAssignsNothing(value);
    SimpleAssignsNothing(owner);
    SimpleAssignsNothing(name);
    if Quiet(value) {
      if Reads(value) <= s.env.Keys {
        BoundValueFirst(i, self, fuel, s, value, owner, name);
      } else {
        UnboundValueFirst(i, self, fuel, s, value, owner, name);
      }
    } else if Reads(owner) + Reads(name) <= s.env.Keys {
      BoundOthersFirst(i, self, fuel, s, value, owner, name);
    } else {
      UnboundOthersFirst(i, self, fuel, s, value, owner, name);
    }
  }

  /** Independent operands give the same values, effects and failures whether the
      value is evaluated first or last. */
  lemma {:induction false} ValueFirstOrLast(
    bound: set<LocalId>, i: Interpretation, self: Option<LocalId>, fuel: nat, s: Store, value: Node, owner: Node,
    name: Node)
    requires Independent(bound, value, owner, name) && bound <= s.env.Keys
    ensures EvalThree(i, self, fuel, s, owner, name, value) == Rotated(EvalThree(i, self, fuel, s, value, owner, name))
  {
    if Simple(value) && Simple(owner) && Simple(name) && OrderHidden(bound, value, owner, name) {
      SimpleFirstOrLast(bound, i, self, fuel, s, value, owner, name);
    } else if Quiet(value) && Reads(value) <= bound - Assigned(owner) - Assigned(name) {
      BoundValueFirst(i, self, fuel, s, value, owner, name);
    } else {
      BoundOthersFirst(i, self, fuel, s, value, owner, name);
    }
  }

  // ------------------------------------------------------- meaning preserved

  /** Two lists evaluate alike element by element, from every store in which these
      locals are bound. */
  ghost predicate Agree(
    bound: set<LocalId>, i: Interpretation, self: Option<LocalId>, fuel: nat, ns: seq<Node>, ms: seq<Node>)
  {
    && |ns| == |ms|
    && forall s: Store, k: nat :: bound <= s.env.Keys && k < |ns| ==>
       Eval(i, self, fuel, s, ns[k]) == Eval(i, self, fuel, s, ms[k])
  }

  lemma {:induction false} AgreeRest(
    bound: set<LocalId>, i: Interpretation, self: Option<LocalId>, fuel: nat, ns: seq<Node>, ms: seq<Node>)
    requires Agree(bound, i, self, fuel, ns, ms) && ns != []
    ensures Agree(bound, i, self, fuel, ns[1..], ms[1..])
  {
    forall s: Store, k: nat | bound <= s.env.Keys && k < |ns| - 1
      ensures Eval(i, self, fuel, s, ns[1..][k]) == Eval(i, self, fuel, s, ms[1..][k])
    {
      assert ns[1..][k] == ns[k + 1] && ms[1..][k] == ms[k + 1];
    }
  }

  lemma {:induction false} AgreeAll(
    bound: set<LocalId>, i: Interpretation, self: Option<LocalId>, fuel: nat, s: Store, ns: seq<Node>, ms: seq<Node>)
    requires Agree(bound, i, self, fuel, ns, ms) && bound <= s.env.Keys
    ensures EvalAll(i, self, fuel, s, ns) == EvalAll(i, self, fuel, s, ms)
    decreases |ns|
  {
    if ns != [] {
      assert Eval(i, self, fuel, s, ns[0]) == Eval(i, self, fuel, s, ms[0]);
      var first := One(Eval(i, self, fuel, s, ns[0]));
      if first.Done? {
        EvalKeeps(i, self, fuel, s, ns[0]);
        AgreeRest(bound, i, self, fuel, ns, ms);
        AgreeAll(bound, i, self, fuel, first.store, ns[1..], ms[1..]);
      }
    }
  }

  lemma {:induction false} AgreeSuite(
    bound: set<LocalId>, i: Interpretation, self: Option<LocalId>, fuel: nat, s: Store, ns: seq<Node>, ms: seq<Node>)
    requires Agree(bound, i, self, fuel, ns, ms) && bound <= s.env.Keys
    ensures EvalSuite(i, self, fuel, s, ns) == EvalSuite(i, self, fuel, s, ms)
    decreases |ns|
  {
    if ns != [] {
      assert Eval(i, self, fuel, s, ns[0]) == Eval(i, self, fuel, s, ms[0]);
      var first := Eval(i, self, fuel, s, ns[0]);
      if first.Done? {
        EvalKeeps(i, self, fuel, s, ns[0]);
        AgreeRest(bound, i, self, fuel, ns, ms);
        AgreeSuite(bound, i, self, fuel, first.store, ns[1..], ms[1..]);
      }
    }
  }

  lemma {:induction false} AgreeTerms(
    bound: set<LocalId>, i: Interpretation, self: Option<LocalId>, fuel: nat, s: Store, stopOn: bool, ns: seq<Node>,
    ms: seq<Node>)
    requires Agree(bound, i, self, fuel, ns, ms) && bound <= s.env.Keys
    ensures EvalTerms(i, self, fuel, s, stopOn, ns) == EvalTerms(i, self, fuel, s, stopOn, ms)
    decreases |ns|
  {
    if ns != [] {
      assert Eval(i, self, fuel, s, ns[0]) == Eval(i, self, fuel, s, ms[0]);
      var first := One(Eval(i, self, fuel, s, ns[0]));
      if first.Done? {
        EvalKeeps(i, self, fuel, s, ns[0]);
        AgreeRest(bound, i, self, fuel, ns, ms);
        AgreeTerms(bound, i, self, fuel, first.store, stopOn, ns[1..], ms[1..]);
      }
    }
  }

  lemma {:induction false} EvalAllLength(i: Interpretation, self: Option<LocalId>, fuel: nat, s: Store, ns: seq<Node>)
    ensures var o := EvalAll(i, self, fuel, s, ns); o.Done? ==> |o.values| == |ns|
    decreases |ns|
  {
    if ns != [] {
      var first := One(Eval(i, self, fuel, s, ns[0]));
      if first.Done? {
        EvalAllLength(i, self, fuel, first.store, ns[1..]);
      }
    }
  }

  /** The operands in call order, evaluated, are the values in call order. */
  lemma {:induction false} CallOrderValues(
    bound: set<LocalId>, i: Interpretation, self: Option<LocalId>, fuel: nat, s: Store, op: Operator,
    operands: seq<Node>)
    requires Orderly(bound, Apply(op, operands)) && bound <= s.env.Keys
    ensures var o := EvalAll(i, self, fuel, s, operands);
            EvalAll(i, self, fuel, s, CallOrder(op, operands)) == InCallOrder(op, o)
  {
    EvalAllLength(i, self, fuel, s, operands);
    if IsSetter(op) && |operands| == 3 {
      var value, owner, name := operands[0], operands[1], operands[2];
      assert operands == [value, owner, name];
      EvalAllThree(i, self, fuel, s, value, owner, name);
      EvalAllThree(i, self, fuel, s, owner, name, value);
      ValueFirstOrLast(bound, i, self, fuel, s, value, owner, name);
    }
  }

  lemma {:induction false} AgreeCallOrder(
    bound: set<LocalId>, i: Interpretation, self: Option<LocalId>, fuel: nat, op: Operator, ns: seq<Node>,
    ms: seq<Node>)
    requires Agree(bound, i, self, fuel, ns, ms)
    ensures Agree(bound, i, self, fuel, CallOrder(op, ns), CallOrder(op, ms))
  {
    if IsSetter(op) && |ns| == 3 {
      forall s: Store, k: nat | bound <= s.env.Keys && k < 3
        ensures Eval(i, self, fuel, s, CallOrder(op, ns)[k]) == Eval(i, self, fuel, s, CallOrder(op, ms)[k])
      {
        var j: nat := if k == 2 then 0 else k + 1;
        assert Eval(i, self, fuel, s, ns[j]) == Eval(i, self, fuel, s, ms[j]);
      }
    }
  }

  /** The implicit function argument comes first, as the operator reads it. */
  lemma {:induction false} ImplicitFirst(
    i: Interpretation, self: Option<LocalId>, fuel: nat, s: Store, op: Operator, ns: seq<Node>)
    ensures EvalAll(i, self, fuel, s, ImplicitNode(op, self) + ns)
         == Prefixed(Implicit(op, self, s), EvalAll(i, self, fuel, s, ns))
  {
    var all := ImplicitNode(op, self) + ns;
    if IsGlobal(op) && self.Some? {
      assert all[1..] == ns && all[0] == Local(self.value);
    } else {
      assert all == ns;
      var o := EvalAll(i, self, fuel, s, ns);
      if o.Done? {
        assert [] + o.values == o.values;
      }
    }
  }

  /** The values of two evaluations, the first of which leaves the store alone. */
  function Prefixed(first: Outcome, rest: Outcome): Outcome {
    if !first.Done? then first
    else if !rest.Done? then rest
    else Done(first.values + rest.values, rest.store)
  }

  /** The values of an evaluation in call order. */
  function InCallOrder(op: Operator, o: Outcome): Outcome {
    if o.Done? then Done(CallOrder(op, o.values), o.store) else o
  }

  /** The arguments of an intrinsic call, evaluated. */
  lemma {:induction false} IntrinsicArguments(
    bound: set<LocalId>, i: Interpretation, self: Option<LocalId>, fuel: nat, s: Store, op: Operator,
    operands: seq<Node>, lowered: seq<Node>)
    requires Orderly(bound, Apply(op, operands)) && Agree(bound, i, self, fuel, operands, lowered)
             && bound <= s.env.Keys
    ensures EvalAll(i, self, fuel, s, ImplicitNode(op, self) + CallOrder(op, lowered))
         == Prefixed(Implicit(op, self, s), InCallOrder(op, EvalAll(i, self, fuel, s, operands)))
  {
    CallOrderValues(bound, i, self, fuel, s, op, operands);
    AgreeCallOrder(bound, i, self, fuel, op, operands, lowered);
    AgreeAll(bound, i, self, fuel, s, CallOrder(op, operands), CallOrder(op, lowered));
    ImplicitFirst(i, self, fuel, s, op, CallOrder(op, lowered));
  }

  lemma {:induction false} WrappedCompletes(
    i: Interpretation, self: Option<LocalId>, fuel: nat, s: Store, op: Operator, call: Node)
    ensures Eval(i, self, fuel, s, Wrapped(op, call)) == Complete(op, Eval(i, self, fuel, s, call))
  {
  }

  /** An intrinsic call does what the operator does. */
  lemma {:induction false} IntrinsicMeansOperator(
    bound: set<LocalId>, i: Interpretation, x: Exports, self: Option<LocalId>, fuel: nat, s: Store, op: Operator,
    operands: seq<Node>, lowered: seq<Node>)
    requires Denotes(i, x, self) && Orderly(bound, Apply(op, operands))
             && Agree(bound, i, self, fuel, operands, lowered)
    requires ExportFor(x, self, op, |operands|).Use? && bound <= s.env.Keys
    ensures Eval(i, self, fuel, s, Intrinsic(op, self, ExportFor(x, self, op, |operands|).code, lowered))
         == Eval(i, self, fuel, s, Apply(op, operands))
  {
    var code := ExportFor(x, self, op, |operands|).code;
    var args := ImplicitNode(op, self) + CallOrder(op, lowered);
    var call := Structure(DirectCall(code, Positional(|args|)), args);
    WrappedCompletes(i, self, fuel, s, op, call);
    IntrinsicArguments(bound, i, self, fuel, s, op, operands, lowered);
    EvalAllLength(i, self, fuel, s, operands);
    var implicit, o := Implicit(op, self, s), EvalAll(i, self, fuel, s, operands);
    if implicit.Done? && o.Done? {
      var running := if implicit.values == [] then 0 else implicit.values[0];
      PickedDenotes(i, x, self, op, o.values, running, o.store.heap);
      CallPerforms(i, x, self, fuel, s, op, implicit.values, o, args, call);
    }
  }

  lemma {:induction false} CallPerforms(
    i: Interpretation, x: Exports, self: Option<LocalId>, fuel: nat, s: Store, op: Operator, implicit: seq<Value>,
    o: Outcome,
    args: seq<Node>, call: Node)
    requires o.Done? && ExportFor(x, self, op, |o.values|).Use? && Implicit(op, self, s) == Done(implicit, s)
    requires DenotesAt(i, x, self, op, o.values, if implicit == [] then 0 else implicit[0], o.store.heap)
    requires EvalAll(i, self, fuel, s, args) == Done(implicit + CallOrder(op, o.values), o.store)
    requires call == Structure(DirectCall(ExportFor(x, self, op, |o.values|).code, Positional(|args|)), args)
    ensures Eval(i, self, fuel, s, call) == Performed(i.operate(op, implicit + o.values, o.store.heap), o.store)
  {
    EvalAllLength(i, self, fuel, s, args);
    assert |args| == |implicit| + |o.values|;
  }

  /** Lowering preserves the meaning of every tree whose setters have independent
      operands, given the locals bound on entry: the same values, stores, exits and
      failures from every such store. */
  lemma {:induction false} LoweringPreservesMeaning(
    bound: set<LocalId>, i: Interpretation, x: Exports, self: Option<LocalId>, fuel: nat, s: Store, n: Node)
    requires Denotes(i, x, self) && Orderly(bound, n) && Lower(x, self, n).Some? && bound <= s.env.Keys
    ensures Eval(i, self, fuel, s, Lower(x, self, n).value) == Eval(i, self, fuel, s, n)
    decreases fuel, n, 1
  {
    match n
    case Apply(op, operands) =>
      ChildrenAgree(bound, i, x, self, fuel, operands);
      var lowered := LowerAll(x, self, operands).value;
      if ExportFor(x, self, op, |operands|).Use? {
        IntrinsicMeansOperator(bound, i, x, self, fuel, s, op, operands, lowered);
      } else {
        AgreeAll(bound, i, self, fuel, s, operands, lowered);
      }
    case Structure(form, c) =>
      StructurePreserved(bound, i, x, self, fuel, s, form, c);
    case _ =>
  }

  lemma {:induction false} StructurePreserved(
    bound: set<LocalId>, i: Interpretation, x: Exports, self: Option<LocalId>, fuel: nat, s: Store, form: Form,
    c: seq<Node>)
    requires Denotes(i, x, self) && OrderlyAll(bound, c) && LowerAll(x, self, c).Some? && bound <= s.env.Keys
    ensures Eval(i, self, fuel, s, Structure(form, LowerAll(x, self, c).value))
         == Eval(i, self, fuel, s, Structure(form, c))
    decreases fuel, Structure(form, c), 0
  {
    ChildrenAgree(bound, i, x, self, fuel, c);
    var c' := LowerAll(x, self, c).value;
    if form.While? && |c| == 2 && fuel > 0 {
      LaterTurns(bound, i, x, self, fuel - 1, form, c);
    }
    StructureAgrees(bound, i, self, fuel, s, form, c, c');
  }

  lemma {:induction false} LaterTurns(
    bound: set<LocalId>, i: Interpretation, x: Exports, self: Option<LocalId>, fuel: nat, form: Form, c: seq<Node>)
    requires Denotes(i, x, self) && OrderlyAll(bound, c) && LowerAll(x, self, c).Some?
    ensures LaterTurnsAgree(bound, i, self, fuel, form, c, LowerAll(x, self, c).value)
    decreases fuel, Structure(form, c), 2
  {
    forall s: Store | bound <= s.env.Keys
      ensures TurnAgrees(i, self, fuel, s, form, c, LowerAll(x, self, c).value)
    {
      LoweringPreservesMeaning(bound, i, x, self, fuel, s, Structure(form, c));
    }
  }

  lemma {:induction false} ChildrenAgree(
    bound: set<LocalId>, i: Interpretation, x: Exports, self: Option<LocalId>, fuel: nat, ns: seq<Node>)
    requires Denotes(i, x, self) && OrderlyAll(bound, ns) && LowerAll(x, self, ns).Some?
    ensures Agree(bound, i, self, fuel, ns, LowerAll(x, self, ns).value)
    decreases fuel, ns
  {
    var ms := LowerAll(x, self, ns).value;
    forall s: Store, k: nat | bound <= s.env.Keys && k < |ns|
      ensures Eval(i, self, fuel, s, ns[k]) == Eval(i, self, fuel, s, ms[k])
    {
      LowerAllAt(x, self, ns, k);
      OrderlyEach(bound, ns, k);
      LoweringPreservesMeaning(bound, i, x, self, fuel, s, ns[k]);
    }
  }

  lemma {:induction false} LowerAllAt(x: Exports, self: Option<LocalId>, ns: seq<Node>, k: nat)
    requires LowerAll(x, self, ns).Some? && k < |ns|
    ensures Lower(x, self, ns[k]) == Some(LowerAll(x, self, ns).value[k])
  {
    if k > 0 {
      LowerAllAt(x, self, ns[1..], k - 1);
    }
  }

  /** The next turn of a loop. */
  ghost predicate TurnAgrees(
    i: Interpretation, self: Option<LocalId>, fuel: nat, s: Store, form: Form, c: seq<Node>, c': seq<Node>)
  {
    Eval(i, self, fuel, s, Structure(form, c')) == Eval(i, self, fuel, s, Structure(form, c))
  }

  ghost predicate LaterTurnsAgree(
    bound: set<LocalId>, i: Interpretation, self: Option<LocalId>, fuel: nat, form: Form, c: seq<Node>, c': seq<Node>)
  {
    forall s: Store :: bound <= s.env.Keys ==> TurnAgrees(i, self, fuel, s, form, c, c')
  }

  /** A form with children that agree, and for a loop also one turn later. */
  lemma {:induction false} StructureAgrees(
    bound: set<LocalId>, i: Interpretation, self: Option<LocalId>, fuel: nat, s: Store, form: Form, c: seq<Node>,
    c': seq<Node>)
    requires Agree(bound, i, self, fuel, c, c') && bound <= s.env.Keys
    requires form.While? && |c| == 2 && fuel > 0 ==> LaterTurnsAgree(bound, i, self, fuel - 1, form, c, c')
    ensures Eval(i, self, fuel, s, Structure(form, c')) == Eval(i, self, fuel, s, Structure(form, c))
  {
    match form
    case Invocation(_, _) => AgreeAll(bound, i, self, fuel, s, c, c');
    case DirectCall(_, _) => AgreeAll(bound, i, self, fuel, s, c, c');
    case Return => AgreeAll(bound, i, self, fuel, s, c, c');
    case ShortCircuit(stopOn) => AgreeTerms(bound, i, self, fuel, s, stopOn, c, c');
    case Suite => AgreeSuite(bound, i, self, fuel, s, c, c');
    case Break =>
    case Continue =>
    case While =>
      if |c| == 2 {
        LoopAgrees(bound, i, self, fuel, s, c, c');
      }
    case _ =>
      if c != [] {
        EvalKeeps(i, self, fuel, s, c[0]);
      }
  }

  lemma {:induction false} LoopAgrees(
    bound: set<LocalId>, i: Interpretation, self: Option<LocalId>, fuel: nat, s: Store, c: seq<Node>, c': seq<Node>)
    requires Agree(bound, i, self, fuel, c, c') && |c| == 2 && bound <= s.env.Keys
    requires fuel > 0 ==> LaterTurnsAgree(bound, i, self, fuel - 1, While, c, c')
    ensures Eval(i, self, fuel, s, Structure(While, c')) == Eval(i, self, fuel, s, Structure(While, c))
  {
    assert Eval(i, self, fuel, s, c[0]) == Eval(i, self, fuel, s, c'[0]);
    var test := One(Eval(i, self, fuel, s, c[0]));
    EvalKeeps(i, self, fuel, s, c[0]);
    if test.Done? {
      EvalKeeps(i, self, fuel, test.store, c[1]);
      assert Eval(i, self, fuel, test.store, c[1]) == Eval(i, self, fuel, test.store, c'[1]);
      var body := Eval(i, self, fuel, test.store, c[1]);
      if (body.Done? || body.Continuing?) && fuel > 0 {
        assert TurnAgrees(i, self, fuel - 1, body.store, While, c, c');
      }
    }
  }

  // ---------------------------------------------------- where the order shows

  /** Calls return how many effects came before them; intrinsics and operators
      record their arguments in call order. */
  const COUNTING := Interpretation(
    (op, values, heap) => Results([0], heap + CallOrder(op, values)),
    (code, shape, values, heap) => Results([0], heap + values),
    (kind, shape, values, heap) => Results([|heap|], heap + [0]),
    value => true)

  lemma {:induction false} CountingDenotes(x: Exports, self: Option<LocalId>)
    ensures Denotes(COUNTING, x, self)
  {
  }

  /** Exactly these locals are bound, and nothing has happened. */
  function StoreWith(ids: set<LocalId>): Store {
    Store(map id | id in ids :: 0, [])
  }

  /** A call whose locals are bound returns the count and adds to it. */
  lemma {:induction false} CallCounted(self: Option<LocalId>, fuel: nat, s: Store, n: Node)
    requires Simple(n) && !Quiet(n) && Reads(n) <= s.env.Keys
    ensures One(Eval(COUNTING, self, fuel, s, n)) == Done([|s.heap|], s.(heap := s.heap + [0]))
  {
    EvalQuietParts(COUNTING, self, fuel, s, n.children);
  }

  /** A simple operand never takes effects back, and only fails by reading. */
  lemma {:induction false} SimpleCounted(self: Option<LocalId>, fuel: nat, s: Store, n: Node)
    requires Simple(n)
    ensures var o := One(Eval(COUNTING, self, fuel, s, n));
            && (o.Done? || o == Raised("unbound local", s))
            && (o.Done? <==> Reads(n) <= s.env.Keys)
            && (o.Done? ==> o.store == if Quiet(n) then s else s.(heap := s.heap + [0]))
  {
    if Quiet(n) {
      EvalQuiet(COUNTING, self, fuel, s, n);
    } else if Reads(n) <= s.env.Keys {
      CallCounted(self, fuel, s, n);
    } else {
      EvalQuietParts(COUNTING, self, fuel, s, n.children);
    }
  }

  lemma {:induction false} SimpleIsSettled(bound: set<LocalId>, x: Exports, self: Option<LocalId>, n: Node)
    requires Simple(n)
    ensures Settled(x, self, n) && Orderly(bound, n)
  {
    if !Quiet(n) {
      QuietAreSettled(bound, x, self, n.children);
    }
  }

  lemma {:induction false} QuietAreSettled(bound: set<LocalId>, x: Exports, self: Option<LocalId>, ns: seq<Node>)
    requires QuietAll(ns)
    ensures SettledAll(x, self, ns) && OrderlyAll(bound, ns)
    decreases |ns|
  {
    if ns != [] {
      assert ns[0] in ns;
      QuietAreSettled(bound, x, self, ns[1..]);
    }
  }

  /** A setter whose three operands are simple, and which is lowered. */
  ghost predicate SimpleSetter(x: Exports, self: Option<LocalId>, op: Operator, value: Node, owner: Node, name: Node) {
    IsSetter(op) && Simple(value) && Simple(owner) && Simple(name) && ExportFor(x, self, op, 3).Use?
  }

  lemma {:induction false} SimpleSetterLowered(
    x: Exports, self: Option<LocalId>, op: Operator, value: Node, owner: Node, name: Node)
    requires SimpleSetter(x, self, op, value, owner, name)
    ensures Lower(x, self, Apply(op, [value, owner, name]))
         == var call := DirectCall(ExportFor(x, self, op, 3).code, Positional(3));
            Some(Structure(Discard, [Structure(call, [owner, name, value])]))
  {
    var ns := [value, owner, name];
    SimpleIsSettled({}, x, self, value);
    SimpleIsSettled({}, x, self, owner);
    SimpleIsSettled({}, x, self, name);
    SettledEach(x, self, ns);
    AllSettledAreKept(x, self, ns);
    assert [] + [owner, name, value] == [owner, name, value];
  }

  lemma {:induction false} SetterRecorded(
    self: Option<LocalId>, fuel: nat, s: Store, op: Operator, value: Node, owner: Node, name: Node)
    requires IsSetter(op)
    ensures var o := EvalThree(COUNTING, self, fuel, s, value, owner, name);
            Eval(COUNTING, self, fuel, s, Apply(op, [value, owner, name]))
            == if o.Done? then Done([], o.store.(heap := o.store.heap + CallOrder(op, o.values))) else o
  {
    EvalAllThree(COUNTING, self, fuel, s, value, owner, name);
    var o := EvalThree(COUNTING, self, fuel, s, value, owner, name);
    if o.Done? {
      assert [] + o.values == o.values;
      assert COUNTING.operate(op, o.values, o.store.heap) == Results([0], o.store.heap + CallOrder(op, o.values));
    }
  }

  lemma {:induction false} CallRecorded(
    self: Option<LocalId>, fuel: nat, s: Store, code: CodeId, a: Node, b: Node, c: Node)
    ensures var o := EvalThree(COUNTING, self, fuel, s, a, b, c);
            var call := Structure(DirectCall(code, Positional(3)), [a, b, c]);
            Eval(COUNTING, self, fuel, s, Structure(Discard, [call]))
            == if o.Done? then Done([], o.store.(heap := o.store.heap + o.values)) else o
  {
    EvalAllThree(COUNTING, self, fuel, s, a, b, c);
  }

  ghost predicate SameMeaning(i: Interpretation, x: Exports, self: Option<LocalId>, fuel: nat, s: Store, n: Node) {
    Lower(x, self, n).Some? && Eval(i, self, fuel, s, Lower(x, self, n).value) == Eval(i, self, fuel, s, n)
  }

  /** The two outcomes of a counted setter, from those of its operands. */
  lemma {:induction false} SetterOutcomes(
    x: Exports, self: Option<LocalId>, fuel: nat, s: Store, op: Operator, value: Node, owner: Node, name: Node)
    requires SimpleSetter(x, self, op, value, owner, name)
    ensures var o := EvalThree(COUNTING, self, fuel, s, value, owner, name);
            var p := EvalThree(COUNTING, self, fuel, s, owner, name, value);
            SameMeaning(COUNTING, x, self, fuel, s, Apply(op, [value, owner, name]))
            <==> (if p.Done? then Done([], p.store.(heap := p.store.heap + p.values)) else p)
                 == if o.Done? then Done([], o.store.(heap := o.store.heap + CallOrder(op, o.values))) else o
  {
    SimpleSetterLowered(x, self, op, value, owner, name);
    SetterRecorded(self, fuel, s, op, value, owner, name);
    CallRecorded(self, fuel, s, ExportFor(x, self, op, 3).code, owner, name, value);
  }

  lemma {:induction false} LastsDiffer(h: Heap, xs: Heap, h': Heap, ys: Heap)
    requires |h| == |h'| && |xs| == |ys| && xs != [] && xs[|xs| - 1] != ys[|ys| - 1]
    ensures h + xs != h' + ys
  {
    assert (h + xs)[|h| + |xs| - 1] != (h' + ys)[|h| + |xs| - 1];
  }

  /** The counts that three bound simple operands see. */
  lemma {:induction false} ThreeCounted(self: Option<LocalId>, fuel: nat, s: Store, a: Node, b: Node, c: Node)
    requires Simple(a) && Simple(b) && Simple(c) && Reads(a) + Reads(b) + Reads(c) <= s.env.Keys
    ensures var o := EvalThree(COUNTING, self, fuel, s, a, b, c);
            var h := |s.heap|;
            var h1 := h + (if Quiet(a) then 0 else 1);
            var h2 := h1 + (if Quiet(b) then 0 else 1);
            && o.Done? && |o.values| == 3 && |o.store.heap| == h2 + (if Quiet(c) then 0 else 1)
            && (!Quiet(a) ==> o.values[0] == h) && (!Quiet(c) ==> o.values[2] == h2)
  {
    SimpleCounted(self, fuel, s, a);
    var o1 := One(Eval(COUNTING, self, fuel, s, a));
    SimpleCounted(self, fuel, o1.store, b);
    var o2 := One(Eval(COUNTING, self, fuel, o1.store, b));
    SimpleCounted(self, fuel, o2.store, c);
    if !Quiet(a) {
      CallCounted(self, fuel, s, a);
    }
    if !Quiet(c) {
      CallCounted(self, fuel, o2.store, c);
    }
  }

  /** Two calls, the value among them: the value recorded last is another count. */
  lemma {:induction false} TwoCallsShow(
    x: Exports, self: Option<LocalId>, fuel: nat, s: Store, op: Operator, value: Node, owner: Node, name: Node)
    requires SimpleSetter(x, self, op, value, owner, name)
    requires !Quiet(value) && !(Quiet(owner) && Quiet(name))
    requires Reads(value) + Reads(owner) + Reads(name) <= s.env.Keys
    ensures !SameMeaning(COUNTING, x, self, fuel, s, Apply(op, [value, owner, name]))
  {
    SetterOutcomes(x, self, fuel, s, op, value, owner, name);
    ThreeCounted(self, fuel, s, value, owner, name);
    ThreeCounted(self, fuel, s, owner, name, value);
    var o := EvalThree(COUNTING, self, fuel, s, value, owner, name);
    var p := EvalThree(COUNTING, self, fuel, s, owner, name, value);
    LastsDiffer(o.store.heap, CallOrder(op, o.values), p.store.heap, p.values);
  }

  /** An unbound reference as value fails with nothing done; evaluated last, it
      fails after the call of another operand. */
  lemma {:induction false} LateValueShows(
    x: Exports, self: Option<LocalId>, fuel: nat, s: Store, op: Operator, value: Node, owner: Node, name: Node)
    requires SimpleSetter(x, self, op, value, owner, name)
    requires Quiet(value) && !(Reads(value) <= s.env.Keys)
    requires !(Quiet(owner) && Quiet(name)) && EarlyReads(owner, name) <= s.env.Keys
    ensures !SameMeaning(COUNTING, x, self, fuel, s, Apply(op, [value, owner, name]))
  {
    SetterOutcomes(x, self, fuel, s, op, value, owner, name);
    EvalQuiet(COUNTING, self, fuel, s, value);
    SimpleCounted(self, fuel, s, owner);
    var first := One(Eval(COUNTING, self, fuel, s, owner));
    SimpleCounted(self, fuel, first.store, name);
    var second := One(Eval(COUNTING, self, fuel, first.store, name));
    if second.Done? {
      SimpleCounted(self, fuel, second.store, value);
    }
    assert |(s.heap + [0])| > |s.heap|;
  }

  /** A call as value is made before the unbound reference fails; evaluated last,
      it is not made at all. */
  lemma {:induction false} LateReferenceShows(
    x: Exports, self: Option<LocalId>, fuel: nat, s: Store, op: Operator, value: Node, owner: Node, name: Node)
    requires SimpleSetter(x, self, op, value, owner, name)
    requires !Quiet(value) && Reads(value) <= s.env.Keys
    requires Quiet(owner) && Quiet(name) && !(Reads(owner) + Reads(name) <= s.env.Keys)
    ensures !SameMeaning(COUNTING, x, self, fuel, s, Apply(op, [value, owner, name]))
  {
    SetterOutcomes(x, self, fuel, s, op, value, owner, name);
    CallCounted(self, fuel, s, value);
    TwoQuiet(COUNTING, self, fuel, s.(heap := s.heap + [0]), owner, name);
    TwoQuiet(COUNTING, self, fuel, s, owner, name);
    TwoThenOne(COUNTING, self, fuel, s, owner, name, value);
    assert |(s.heap + [0])| > |s.heap|;
  }

  /** Operands that do not hide their order show it from some store in which the
      given locals are bound. */
  lemma {:induction false} OrderShows(
    bound: set<LocalId>, x: Exports, self: Option<LocalId>, fuel: nat, op: Operator, value: Node, owner: Node,
    name: Node)
    returns (s: Store)
    requires SimpleSetter(x, self, op, value, owner, name) && !OrderHidden(bound, value, owner, name)
    ensures bound <= s.env.Keys && !SameMeaning(COUNTING, x, self, fuel, s, Apply(op, [value, owner, name]))
  {
    var all := bound + Reads(value) + Reads(owner) + Reads(name);
    if Quiet(value) {
      s := StoreWith(all - (Reads(value) - bound - EarlyReads(owner, name)));
      LateValueShows(x, self, fuel, s, op, value, owner, name);
    } else if Quiet(owner) && Quiet(name) {
      s := StoreWith(all - (Reads(owner) + Reads(name) - bound - Reads(value)));
      LateReferenceShows(x, self, fuel, s, op, value, owner, name);
    } else {
      s := StoreWith(all);
      TwoCallsShow(x, self, fuel, s, op, value, owner, name);
    }
  }

  /** For a setter with simple operands the condition is exact, whatever locals are
      known to be bound: lowering preserves its meaning under every interpretation
      and from every store that binds them if and only if the operands hide their
      order. */
  lemma {:induction false} SimpleSettersExactly(
    bound: set<LocalId>, x: Exports, self: Option<LocalId>, op: Operator, value: Node, owner: Node, name: Node)
    requires SimpleSetter(x, self, op, value, owner, name)
    ensures var n := Apply(op, [value, owner, name]);
            (forall i: Interpretation, fuel: nat, s: Store :: Denotes(i, x, self) && bound <= s.env.Keys ==>
             SameMeaning(i, x, self, fuel, s, n))
            <==> OrderHidden(bound, value, owner, name)
  {
    var n := Apply(op, [value, owner, name]);
    if OrderHidden(bound, value, owner, name) {
      SimpleSetterLowered(x, self, op, value, owner, name);
      SimpleOrderly(bound, x, self, op, value, owner, name);
      forall i: Interpretation, fuel: nat, s: Store | Denotes(i, x, self) && bound <= s.env.Keys
        ensures SameMeaning(i, x, self, fuel, s, n)
      {
        LoweringPreservesMeaning(bound, i, x, self, fuel, s, n);
      }
    } else {
      CountingDenotes(x, self);
      var s := OrderShows(bound, x, self, 0, op, value, owner, name);
    }
  }

  lemma {:induction false} SimpleOrderly(
    bound: set<LocalId>, x: Exports, self: Option<LocalId>, op: Operator, value: Node, owner: Node, name: Node)
    requires SimpleSetter(x, self, op, value, owner, name) && OrderHidden(bound, value, owner, name)
    ensures Orderly(bound, Apply(op, [value, owner, name]))
  {
    SimpleIsSettled(bound, x, self, value);
    SimpleIsSettled(bound, x, self, owner);
    SimpleIsSettled(bound, x, self, name);
    var ns := [value, owner, name];
    assert ns[1..] == [owner, name] && [owner, name][1..] == [name] && [name][1..] == [];
    assert OrderlyAll(bound, [name]) && OrderlyAll(bound, [owner, name]);
  }
}
