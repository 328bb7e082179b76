/** Lowering operators to direct calls of exported intrinsics
    (src/pyflow/optimization/callconverter.py): what is rewritten, that meaning is
    preserved, and where the order of evaluation changes. */
module CallLowering {
  import opened Wrappers
  import opened Decimals

  type LocalId = nat
  type CodeId = nat
  type Value = int

  const DONT_CARE: Value := 0

  /** The operators that lowering knows; `Plain` stands for those it always
      leaves (Is, BuildMap, BuildSlice and others). */
  datatype Operator =
    | ConvertToBool
    | Not
    | BinaryOp(op: string)
    | UnaryPrefixOp(op: string)
    | GetGlobal
    | SetGlobal
    | GetIter
    | BuildList
    | BuildTuple
    | GetAttr
    | SetAttr
    | GetSubscript
    | SetSubscript
    | UnpackSequence(targets: seq<LocalId>)
    | Plain(kind: string)

  /** Which of a call's parts are which: an own receiver first, then positional
      and keyword arguments, then `*args` and `**kargs`. */
  datatype Shape = Shape(hasSelf: bool, positional: nat, keywords: seq<string>, star: bool, doubleStar: bool)

  /** Forms that lowering only passes through. */
  datatype Form =
    | Invocation(kind: string, shape: Shape)           // Call and MethodCall
    | DirectCall(code: CodeId, shape: Shape)
    | NamedExpr(target: LocalId)
    | Conditional                                      // test, body, orelse
    | ShortCircuit(stopOn: bool)                       // and, or
    | Assign(lcls: seq<LocalId>)
    | Discard
    | Return
    | Suite
    | Condition                                        // preamble, conditional
    | Switch                                           // condition, t, f
    | While                                            // condition, body
    | Break
    | Continue

  /** Trees with their children in order of evaluation, as the fields are declared
      (src/pyflow/language/python/ast.py). In particular `SetAttr` holds value,
      object and name, and `SetSubscript` value, object and subscript. */
  datatype Node =
    | Local(id: LocalId)
    | Existing(value: Value)
    | DoNotCare
    | Apply(op: Operator, operands: seq<Node>)
    | Structure(form: Form, children: seq<Node>)

  predicate ArityOk(form: Form, n: nat) {
    match form
    case NamedExpr(_) => n == 1
    case Conditional => n == 3
    case Assign(_) => n == 1
    case Discard => n == 1
    case Condition => n == 2
    case Switch => n == 3
    case While => n == 2
    case _ => true
  }

  // ---------------------------------------------------------------- meaning

  type Env = map<LocalId, Value>
  type Heap = seq<int>

  datatype Store = Store(env: Env, heap: Heap)

  /** What one primitive step on the heap does. */
  datatype Effect = Results(values: seq<Value>, heap: Heap) | Fault(reason: string, heap: Heap)

  /** An evaluation ends with values (none for a statement), leaves the body or the
      loop, raises, or does not end within the fuel. */
  datatype Outcome =
    | Done(values: seq<Value>, store: Store)
    | Returning(values: seq<Value>, store: Store)
    | Breaking(store: Store)
    | Continuing(store: Store)
    | Raised(reason: string, store: Store)
    | OutOfFuel
  {
    predicate IsFailure() { !Done? }

    function PropagateFailure(): Outcome
      requires IsFailure()
    {
      this
    }

    function Extract(): (seq<Value>, Store)
      requires Done?
    {
      (values, store)
    }
  }

  /** What operators, calls and code objects mean. Global accesses take the
      running function as an additional first operand. */
  datatype Interpretation = Interpretation(
    operate: (Operator, seq<Value>, Heap) -> Effect,
    direct: (CodeId, Shape, seq<Value>, Heap) -> Effect,
    invoke: (string, Shape, seq<Value>, Heap) -> Effect,
    truthy: Value -> bool)

  /** Reading a local that is not bound raises. Failures are compared by their
      kind, not by the name they report. */
  function ReadLocal(s: Store, id: LocalId): Outcome {
    if id in s.env then Done([s.env[id]], s) else Raised("unbound local", s)
  }

  function Bind(targets: seq<LocalId>, values: seq<Value>, s: Store): Outcome {
    if |targets| != |values| then Raised("wrong number of values", s)
    else Done([], Store(Bound(s.env, targets, values), s.heap))
  }

  function Bound(env: Env, targets: seq<LocalId>, values: seq<Value>): Env
    requires |targets| == |values|
    decreases |targets|
  {
    if targets == [] then env else Bound(env[targets[0] := values[0]], targets[1..], values[1..])
  }

  function Performed(e: Effect, s: Store): Outcome {
    match e
    case Results(values, heap) => Done(values, s.(heap := heap))
    case Fault(reason, heap) => Raised(reason, s.(heap := heap))
  }

  predicate IsGlobal(op: Operator) { op.GetGlobal? || op.SetGlobal? }

  predicate IsStatement(op: Operator) { op.SetGlobal? || op.SetAttr? || op.SetSubscript? }

  /** The running function, where the operator needs it, in its own local. */
  function Implicit(op: Operator, self: Option<LocalId>, s: Store): Outcome {
    if IsGlobal(op) && self.Some? then ReadLocal(s, self.value) else Done([], s)
  }

  /** An operator's results: dropped by statements, bound by an unpacking. */
  function Complete(op: Operator, o: Outcome): Outcome {
    var (values, s) :- o;
    if IsStatement(op) then Done([], s)
    else if op.UnpackSequence? then Bind(op.targets, values, s)
    else Done(values, s)
  }

  /** Exactly one value. */
  function One(o: Outcome): Outcome {
    var (values, s) :- o;
    if |values| == 1 then o else Raised("not one value", s)
  }

  function Eval(i: Interpretation, self: Option<LocalId>, fuel: nat, s: Store, n: Node): Outcome
    decreases fuel, 1, n
  {
    match n
    case Local(id) => ReadLocal(s, id)
    case Existing(value) => Done([value], s)
    case DoNotCare => Done([DONT_CARE], s)
    case Apply(op, operands) =>
      var (implicit, s0) :- Implicit(op, self, s);
      var (values, s1) :- EvalAll(i, self, fuel, s0, operands);
      Complete(op, Performed(i.operate(op, implicit + values, s1.heap), s1))
    case Structure(form, c) =>
      if !ArityOk(form, |c|) then Raised("malformed", s)
      else
        match form
        case Invocation(kind, shape) =>
          var (values, s1) :- EvalAll(i, self, fuel, s, c);
          Performed(i.invoke(kind, shape, values, s1.heap), s1)
        case DirectCall(code, shape) =>
          var (values, s1) :- EvalAll(i, self, fuel, s, c);
          Performed(i.direct(code, shape, values, s1.heap), s1)
        case NamedExpr(target) =>
          var (values, s1) :- One(Eval(i, self, fuel, s, c[0]));
          Done(values, s1.(env := s1.env[target := values[0]]))
        case Conditional =>
          var (values, s1) :- One(Eval(i, self, fuel, s, c[0]));
          if i.truthy(values[0]) then Eval(i, self, fuel, s1, c[1]) else Eval(i, self, fuel, s1, c[2])
        case ShortCircuit(stopOn) => EvalTerms(i, self, fuel, s, stopOn, c)
        case Assign(lcls) =>
          var (values, s1) :- Eval(i, self, fuel, s, c[0]);
          Bind(lcls, values, s1)
        case Discard =>
          var (values, s1) :- Eval(i, self, fuel, s, c[0]);
          Done([], s1)
        case Return =>
          var (values, s1) :- EvalAll(i, self, fuel, s, c);
          Returning(values, s1)
        case Suite => EvalSuite(i, self, fuel, s, c)
        case Condition =>
          var (nothing, s1) :- Eval(i, self, fuel, s, c[0]);
          Eval(i, self, fuel, s1, c[1])
        case Switch =>
          var (values, s1) :- One(Eval(i, self, fuel, s, c[0]));
          if i.truthy(values[0]) then Eval(i, self, fuel, s1, c[1]) else Eval(i, self, fuel, s1, c[2])
        case While =>
          var (values, s1) :- One(Eval(i, self, fuel, s, c[0]));
          if !i.truthy(values[0]) then Done([], s1)
          else
            var o := Eval(i, self, fuel, s1, c[1]);
            if o.Breaking? then Done([], o.store)
            else if !(o.Done? || o.Continuing?) then o
            else if fuel == 0 then OutOfFuel
            else Eval(i, self, fuel - 1, o.store, n)
        case Break => Breaking(s)
        case Continue => Continuing(s)
  }

  /** One value of each node, from left to right. */
  function EvalAll(i: Interpretation, self: Option<LocalId>, fuel: nat, s: Store, ns: seq<Node>): Outcome
    decreases fuel, 1, ns
  {
    if ns == [] then Done([], s)
    else
      var (first, s1) :- One(Eval(i, self, fuel, s, ns[0]));
      var (rest, s2) :- EvalAll(i, self, fuel, s1, ns[1..]);
      Done(first + rest, s2)
  }

  function EvalSuite(i: Interpretation, self: Option<LocalId>, fuel: nat, s: Store, ns: seq<Node>): Outcome
    decreases fuel, 1, ns
  {
    if ns == [] then Done([], s)
    else
      var (nothing, s1) :- Eval(i, self, fuel, s, ns[0]);
      EvalSuite(i, self, fuel, s1, ns[1..])
  }

  function EvalTerms(
    i: Interpretation, self: Option<LocalId>, fuel: nat, s: Store, stopOn: bool, ns: seq<Node>): Outcome
    decreases fuel, 1, ns
  {
    if ns == [] then Raised("no terms", s)
    else
      var (values, s1) :- One(Eval(i, self, fuel, s, ns[0]));
      if |ns| == 1 || i.truthy(values[0]) == stopOn then Done(values, s1)
      else EvalTerms(i, self, fuel, s1, stopOn, ns[1..])
  }

  // ------------------------------------------------------------- the exports

  /** `opLUT` and `compare` of src/pyflow/util/python/opnames.py. */
  function OperatorName(op: string): Option<string> {
    match op
    case "+" => Some("add")
    case "-" => Some("sub")
    case "*" => Some("mul")
    case "//" => Some("floordiv")
    case "/" => Some("div")
    case "%" => Some("mod")
    case "**" => Some("pow")
    case "<<" => Some("lshift")
    case ">>" => Some("rshift")
    case "&" => Some("and")
    case "|" => Some("or")
    case "^" => Some("xor")
    case _ => None
  }

  function ComparisonName(op: string): Option<string> {
    match op
    case ">" => Some("gt")
    case "<" => Some("lt")
    case ">=" => Some("ge")
    case "<=" => Some("le")
    case "==" => Some("eq")
    case "!=" => Some("ne")
    case _ => None
  }

  /** The operator of an augmented assignment. */
  predicate IsInPlace(op: string) {
    op != "" && op[|op| - 1] == '=' && OperatorName(op[..|op| - 1]).Some?
  }

  function BinaryMethod(op: string): Option<string> {
    if IsInPlace(op) then Some("__i" + OperatorName(op[..|op| - 1]).value + "__")
    else if OperatorName(op).Some? then Some("__" + OperatorName(op).value + "__")
    else if ComparisonName(op).Some? then Some("__" + ComparisonName(op).value + "__")
    else None
  }

  function UnaryMethod(op: string): Option<string> {
    match op
    case "+" => Some("__pos__")
    case "-" => Some("__neg__")
    case "~" => Some("__invert__")
    case _ => None
  }

  type Exports = map<string, CodeId>

  /** The intrinsic that replaces an operator: none is meant to, or it is missing
      and lowering fails. */
  datatype Export = Use(code: CodeId) | Keep | Missing

  function Required(x: Exports, name: string): Export {
    if name in x then Use(x[name]) else Missing
  }

  function Interpreter(x: Exports, called: Option<string>): Export {
    if called.Some? then Required(x, "interpreter" + called.value) else Missing
  }

  /** A global access needs its export and the function's own local. */
  function GlobalExport(x: Exports, self: Option<LocalId>, name: string): Export {
    if name !in x then Keep else if self.None? then Missing else Use(x[name])
  }

  function ExportFor(x: Exports, self: Option<LocalId>, op: Operator, arity: nat): Export {
    match op
    case ConvertToBool => Required(x, "convertToBool")
    case Not => Required(x, "invertedConvertToBool")
    case BinaryOp(o) => Interpreter(x, BinaryMethod(o))
    case UnaryPrefixOp(o) => Interpreter(x, UnaryMethod(o))
    case GetGlobal => GlobalExport(x, self, "interpreterLoadGlobal")
    case SetGlobal => GlobalExport(x, self, "interpreterStoreGlobal")
    case GetIter => Required(x, "interpreter_iter")
    case BuildList =>
      if "buildList" in x then Use(x["buildList"])
      else if "interpreter_buildList" in x then Use(x["interpreter_buildList"])
      else Keep
    case BuildTuple =>
      var sized := "interpreter_buildTuple" + Decimal(arity);
      if sized in x then Use(x[sized]) else if "buildTuple" in x then Use(x["buildTuple"]) else Keep
    case GetAttr => Required(x, "interpreter_getattribute")
    case SetAttr => Required(x, "interpreter_setattr")
    case GetSubscript => Required(x, "interpreter_getitem")
    case SetSubscript => Required(x, "interpreter_setitem")
    case UnpackSequence(targets) => Required(x, "interpreter_unpack" + Decimal(|targets|))
    case Plain(_) => Keep
  }

  // ----------------------------------------------- what the exports are for

  /** The intrinsic of a binary operator, by its full name. */
  function BinaryIntrinsic(op: string): Option<string> {
    match op
    case "+" => Some("interpreter__add__")
    case "-" => Some("interpreter__sub__")
    case "*" => Some("interpreter__mul__")
    case "//" => Some("interpreter__floordiv__")
    case "/" => Some("interpreter__div__")
    case "%" => Some("interpreter__mod__")
    case "**" => Some("interpreter__pow__")
    case "<<" => Some("interpreter__lshift__")
    case ">>" => Some("interpreter__rshift__")
    case "&" => Some("interpreter__and__")
    case "|" => Some("interpreter__or__")
    case "^" => Some("interpreter__xor__")
    case _ => None
  }

  function ComparisonIntrinsic(op: string): Option<string> {
    match op
    case ">" => Some("interpreter__gt__")
    case "<" => Some("interpreter__lt__")
    case ">=" => Some("interpreter__ge__")
    case "<=" => Some("interpreter__le__")
    case "==" => Some("interpreter__eq__")
    case "!=" => Some("interpreter__ne__")
    case _ => None
  }

  /** The same for augmented assignment, by the operator before the `=`. */
  function InPlaceIntrinsic(op: string): Option<string> {
    match op
    case "+" => Some("interpreter__iadd__")
    case "-" => Some("interpreter__isub__")
    case "*" => Some("interpreter__imul__")
    case "//" => Some("interpreter__ifloordiv__")
    case "/" => Some("interpreter__idiv__")
    case "%" => Some("interpreter__imod__")
    case "**" => Some("interpreter__ipow__")
    case "<<" => Some("interpreter__ilshift__")
    case ">>" => Some("interpreter__irshift__")
    case "&" => Some("interpreter__iand__")
    case "|" => Some("interpreter__ior__")
    case "^" => Some("interpreter__ixor__")
    case _ => None
  }

  /** An export of this name is for this operator with so many operands. */
  predicate Names(name: string, op: Operator, arity: nat) {
    match op
    case ConvertToBool => name == "convertToBool"
    case Not => name == "invertedConvertToBool"
    case BinaryOp(o) =>
      if o != "" && o[|o| - 1] == '=' && InPlaceIntrinsic(o[..|o| - 1]).Some? then
        InPlaceIntrinsic(o[..|o| - 1]) == Some(name)
      else BinaryIntrinsic(o) == Some(name) || ComparisonIntrinsic(o) == Some(name)
    case UnaryPrefixOp(o) =>
      || (o == "+" && name == "interpreter__pos__")
      || (o == "-" && name == "interpreter__neg__")
      || (o == "~" && name == "interpreter__invert__")
    case GetGlobal => name == "interpreterLoadGlobal"
    case SetGlobal => name == "interpreterStoreGlobal"
    case GetIter => name == "interpreter_iter"
    case BuildList => name == "buildList" || name == "interpreter_buildList"
    case BuildTuple => name == "buildTuple" || name == "interpreter_buildTuple" + Decimal(arity)
    case GetAttr => name == "interpreter_getattribute"
    case SetAttr => name == "interpreter_setattr"
    case GetSubscript => name == "interpreter_getitem"
    case SetSubscript => name == "interpreter_setitem"
    case UnpackSequence(targets) => name == "interpreter_unpack" + Decimal(|targets|)
    case Plain(_) => false
  }

  ghost predicate Exported(x: Exports, op: Operator, arity: nat) {
    exists name :: name in x && Names(name, op, arity)
  }

  lemma {:induction false} ArithmeticNames(op: string)
    ensures OperatorName(op).Some? <==> BinaryIntrinsic(op).Some?
    ensures OperatorName(op).Some? ==>
              BinaryIntrinsic(op) == Some("interpreter" + ("__" + OperatorName(op).value + "__"))
  {
    SpellArithmeticNames();
    SpellMoreArithmeticNames();
  }

  lemma {:induction false} SpellMoreArithmeticNames()
    ensures "interpreter" + ("__" + "pow" + "__") == "interpreter__pow__"
    ensures "interpreter" + ("__" + "lshift" + "__") == "interpreter__lshift__"
    ensures "interpreter" + ("__" + "rshift" + "__") == "interpreter__rshift__"
    ensures "interpreter" + ("__" + "and" + "__") == "interpreter__and__"
    ensures "interpreter" + ("__" + "or" + "__") == "interpreter__or__"
    ensures "interpreter" + ("__" + "xor" + "__") == "interpreter__xor__"
  {
  }

  lemma {:induction false} SpellArithmeticNames()
    ensures "interpreter" + ("__" + "add" + "__") == "interpreter__add__"
    ensures "interpreter" + ("__" + "sub" + "__") == "interpreter__sub__"
    ensures "interpreter" + ("__" + "mul" + "__") == "interpreter__mul__"
    ensures "interpreter" + ("__" + "floordiv" + "__") == "interpreter__floordiv__"
    ensures "interpreter" + ("__" + "div" + "__") == "interpreter__div__"
    ensures "interpreter" + ("__" + "mod" + "__") == "interpreter__mod__"
  {
  }

  lemma {:induction false} InPlaceNames(op: string)
    ensures OperatorName(op).Some? <==> InPlaceIntrinsic(op).Some?
    ensures OperatorName(op).Some? ==>
              InPlaceIntrinsic(op) == Some("interpreter" + ("__i" + OperatorName(op).value + "__"))
  {
    SpellInPlaceNames();
    SpellMoreInPlaceNames();
  }

  lemma {:induction false} SpellMoreInPlaceNames()
    ensures "interpreter" + ("__i" + "pow" + "__") == "interpreter__ipow__"
    ensures "interpreter" + ("__i" + "lshift" + "__") == "interpreter__ilshift__"
    ensures "interpreter" + ("__i" + "rshift" + "__") == "interpreter__irshift__"
    ensures "interpreter" + ("__i" + "and" + "__") == "interpreter__iand__"
    ensures "interpreter" + ("__i" + "or" + "__") == "interpreter__ior__"
    ensures "interpreter" + ("__i" + "xor" + "__") == "interpreter__ixor__"
  {
  }

  lemma {:induction false} SpellInPlaceNames()
    ensures "interpreter" + ("__i" + "add" + "__") == "interpreter__iadd__"
    ensures "interpreter" + ("__i" + "sub" + "__") == "interpreter__isub__"
    ensures "interpreter" + ("__i" + "mul" + "__") == "interpreter__imul__"
    ensures "interpreter" + ("__i" + "floordiv" + "__") == "interpreter__ifloordiv__"
    ensures "interpreter" + ("__i" + "div" + "__") == "interpreter__idiv__"
    ensures "interpreter" + ("__i" + "mod" + "__") == "interpreter__imod__"
  {
  }

  lemma {:induction false} ComparisonNames(op: string)
    ensures ComparisonName(op).Some? <==> ComparisonIntrinsic(op).Some?
    ensures ComparisonName(op).Some? ==>
              && ComparisonIntrinsic(op) == Some("interpreter" + ("__" + ComparisonName(op).value + "__"))
              && OperatorName(op).None?
  {
    if op == ">" {
      assert "interpreter" + ("__" + "gt" + "__") == "interpreter__gt__";
    } else if op == "<" {
      assert "interpreter" + ("__" + "lt" + "__") == "interpreter__lt__";
    } else if op == ">=" {
      assert "interpreter" + ("__" + "ge" + "__") == "interpreter__ge__";
    } else if op == "<=" {
      assert "interpreter" + ("__" + "le" + "__") == "interpreter__le__";
    } else if op == "==" {
      assert "interpreter" + ("__" + "eq" + "__") == "interpreter__eq__";
    } else if op == "!=" {
      assert "interpreter" + ("__" + "ne" + "__") == "interpreter__ne__";
    }
  }

  lemma {:induction false} BinaryNames(op: string, name: string)
    ensures Names(name, BinaryOp(op), 2) <==>
              BinaryMethod(op).Some? && name == "interpreter" + BinaryMethod(op).value
  {
    ArithmeticNames(op);
    ComparisonNames(op);
    if op != "" {
      InPlaceNames(op[..|op| - 1]);
    }
  }

  lemma {:induction false} UnaryNames(op: string, name: string)
    ensures Names(name, UnaryPrefixOp(op), 1) <==>
              UnaryMethod(op).Some? && name == "interpreter" + UnaryMethod(op).value
  {
    assert "interpreter" + "__pos__" == "interpreter__pos__";
    assert "interpreter" + "__neg__" == "interpreter__neg__";
    assert "interpreter" + "__invert__" == "interpreter__invert__";
    assert "+"[0] != "-"[0] && "+"[0] != "~"[0] && "-"[0] != "~"[0];
  }

  /** Operators that are left alone when nothing is exported for them. */
  predicate Optional(op: Operator) {
    op.GetGlobal? || op.SetGlobal? || op.BuildList? || op.BuildTuple? || op.Plain?
  }

  /** Which export an operator gets, told by the names: one for that operator, the
      sized tuple builder and the plain list builder before the others. Without
      one, optional operators are left and lowering fails at the others; and it
      fails at a global access that would need the function's own local. */
  lemma {:induction false} ExportForExactly(x: Exports, self: Option<LocalId>, op: Operator, arity: nat)
    ensures var e := ExportFor(x, self, op, arity);
            var blocked := (op.GetGlobal? || op.SetGlobal?) && self.None?;
            && (e.Use? <==> Exported(x, op, arity) && !blocked)
            && (e.Use? ==> exists name :: name in x && Names(name, op, arity) && x[name] == e.code)
            && (e.Keep? <==> !Exported(x, op, arity) && Optional(op))
            && (op.BuildList? && "buildList" in x ==> e == Use(x["buildList"]))
            && var sized := "interpreter_buildTuple" + Decimal(arity);
               (op.BuildTuple? && sized in x ==> e == Use(x[sized]))
  {
    if op.BinaryOp? {
      forall name
        ensures Names(name, op, arity) <==>
              BinaryMethod(op.op).Some? && name == "interpreter" + BinaryMethod(op.op).value
      {
        BinaryNames(op.op, name);
      }
    } else if op.UnaryPrefixOp? {
      forall name
        ensures Names(name, op, arity) <==> UnaryMethod(op.op).Some? && name == "interpreter" + UnaryMethod(op.op).value
      {
        UnaryNames(op.op, name);
      }
    }
  }

  // --------------------------------------------------------------- lowering

  /** Setters are evaluated value first, but called with the value last. */
  function CallOrder<T>(op: Operator, xs: seq<T>): (r: seq<T>)
    ensures |r| == |xs|
  {
    if (op.SetAttr? || op.SetSubscript?) && |xs| == 3 then [xs[1], xs[2], xs[0]] else xs
  }

  function Positional(n: nat): Shape { Shape(false, n, [], false, false) }

  function ImplicitNode(op: Operator, self: Option<LocalId>): seq<Node> {
    if IsGlobal(op) && self.Some? then [Local(self.value)] else []
  }

  /** The statement or expression around the direct call. */
  function Wrapped(op: Operator, call: Node): Node {
    if IsStatement(op) then Structure(Discard, [call])
    else if op.UnpackSequence? then Structure(Assign(op.targets), [call])
    else call
  }

  function Intrinsic(op: Operator, self: Option<LocalId>, code: CodeId, operands: seq<Node>): Node {
    var args := ImplicitNode(op, self) + CallOrder(op, operands);
    Wrapped(op, Structure(DirectCall(code, Positional(|args|)), args))
  }

  /** `ConvertCalls`; None is the exception of a missing export. */
  function Lower(x: Exports, self: Option<LocalId>, n: Node): Option<Node>
    decreases n
  {
    match n
    case Local(_) => Some(n)
    case Existing(_) => Some(n)
    case DoNotCare => Some(n)
    case Apply(op, operands) =>
      var lowered :- LowerAll(x, self, operands);
      (match ExportFor(x, self, op, |operands|)
       case Missing => None
       case Keep => Some(Apply(op, lowered))
       case Use(code) => Some(Intrinsic(op, self, code, lowered)))
    case Structure(form, children) =>
      var lowered :- LowerAll(x, self, children);
      Some(Structure(form, lowered))
  }

  function LowerAll(x: Exports, self: Option<LocalId>, ns: seq<Node>): (r: Option<seq<Node>>)
    ensures r.Some? ==> |r.value| == |ns|
    decreases ns
  {
    if ns == [] then Some([])
    else
      var first :- Lower(x, self, ns[0]);
      var rest :- LowerAll(x, self, ns[1..]);
      Some([first] + rest)
  }

  // ------------------------------------------------------- nothing left to do

  /** No operator below has an export to be replaced by. */
  predicate Settled(x: Exports, self: Option<LocalId>, n: Node)
    decreases n
  {
    match n
    case Apply(op, operands) => ExportFor(x, self, op, |operands|).Keep? && SettledAll(x, self, operands)
    case Structure(_, children) => SettledAll(x, self, children)
    case _ => true
  }

  predicate SettledAll(x: Exports, self: Option<LocalId>, ns: seq<Node>)
    decreases ns
  {
    ns != [] ==> Settled(x, self, ns[0]) && SettledAll(x, self, ns[1..])
  }

  lemma {:induction false} SettledEach(x: Exports, self: Option<LocalId>, ns: seq<Node>)
    ensures SettledAll(x, self, ns) <==> forall k :: 0 <= k < |ns| ==> Settled(x, self, ns[k])
  {
    if ns != [] {
      SettledEach(x, self, ns[1..]);
      forall k | 1 <= k < |ns|
        ensures ns[k] == ns[1..][k - 1]
      {
      }
    }
  }

  /** Lowering leaves no operator it has an unconditional or available export for. */
  lemma {:induction false} LoweredIsSettled(x: Exports, self: Option<LocalId>, n: Node)
    requires Lower(x, self, n).Some?
    ensures Settled(x, self, Lower(x, self, n).value)
    decreases n
  {
    match n
    case Apply(op, operands) =>
      AllLoweredAreSettled(x, self, operands);
      var lowered := LowerAll(x, self, operands).value;
      var e := ExportFor(x, self, op, |operands|);
      if e.Use? {
        IntrinsicIsSettled(x, self, op, e.code, lowered);
      }
    case Structure(_, children) => AllLoweredAreSettled(x, self, children);
    case _ =>
  }

  lemma {:induction false} IntrinsicIsSettled(
    x: Exports, self: Option<LocalId>, op: Operator, code: CodeId, operands: seq<Node>)
    requires SettledAll(x, self, operands)
    ensures Settled(x, self, Intrinsic(op, self, code, operands))
  {
    var args := ImplicitNode(op, self) + CallOrder(op, operands);
    SettledEach(x, self, operands);
    SettledEach(x, self, args);
    var call := Structure(DirectCall(code, Positional(|args|)), args);
    SettledEach(x, self, [call]);
  }

  lemma {:induction false} AllLoweredAreSettled(x: Exports, self: Option<LocalId>, ns: seq<Node>)
    requires LowerAll(x, self, ns).Some?
    ensures SettledAll(x, self, LowerAll(x, self, ns).value)
    decreases ns
  {
    if ns != [] {
      LoweredIsSettled(x, self, ns[0]);
      AllLoweredAreSettled(x, self, ns[1..]);
      assert LowerAll(x, self, ns).value[1..] == LowerAll(x, self, ns[1..]).value;
    }
  }

  lemma {:induction false} SettledIsKept(x: Exports, self: Option<LocalId>, n: Node)
    requires Settled(x, self, n)
    ensures Lower(x, self, n) == Some(n)
    decreases n
  {
    match n
    case Apply(_, operands) => AllSettledAreKept(x, self, operands);
    case Structure(_, children) => AllSettledAreKept(x, self, children);
    case _ =>
  }

  lemma {:induction false} AllSettledAreKept(x: Exports, self: Option<LocalId>, ns: seq<Node>)
    requires SettledAll(x, self, ns)
    ensures LowerAll(x, self, ns) == Some(ns)
    decreases ns
  {
    if ns != [] {
      SettledIsKept(x, self, ns[0]);
      AllSettledAreKept(x, self, ns[1..]);
      assert [ns[0]] + ns[1..] == ns;
    }
  }

  /** Lowering twice equals lowering once. */
  lemma {:induction false} LoweringIsIdempotent(x: Exports, self: Option<LocalId>, n: Node)
    requires Lower(x, self, n).Some?
    ensures Lower(x, self, Lower(x, self, n).value) == Lower(x, self, n)
  {
    LoweredIsSettled(x, self, n);
    SettledIsKept(x, self, Lower(x, self, n).value);
  }

  /** Lowering fails exactly when an operator of the tree misses a needed export. */
  predicate Lowerable(x: Exports, self: Option<LocalId>, n: Node)
    decreases n
  {
    match n
    case Apply(op, operands) => !ExportFor(x, self, op, |operands|).Missing? && LowerableAll(x, self, operands)
    case Structure(_, children) => LowerableAll(x, self, children)
    case _ => true
  }

  predicate LowerableAll(x: Exports, self: Option<LocalId>, ns: seq<Node>)
    decreases ns
  {
    ns != [] ==> Lowerable(x, self, ns[0]) && LowerableAll(x, self, ns[1..])
  }

  lemma {:induction false} LoweringSucceedsWhenLowerable(x: Exports, self: Option<LocalId>, n: Node)
    ensures Lower(x, self, n).Some? <==> Lowerable(x, self, n)
    decreases n
  {
    match n
    case Apply(_, operands) => AllLowerable(x, self, operands);
    case Structure(_, children) => AllLowerable(x, self, children);
    case _ =>
  }

  lemma {:induction false} AllLowerable(x: Exports, self: Option<LocalId>, ns: seq<Node>)
    ensures LowerAll(x, self, ns).Some? <==> LowerableAll(x, self, ns)
    decreases ns
  {
    if ns != [] {
      LoweringSucceedsWhenLowerable(x, self, ns[0]);
      AllLowerable(x, self, ns[1..]);
    }
  }

  /** What stands for an operator that has an export: a direct call with positional
      arguments only, the own local first where a global is accessed and a setter's
      value last; dropped after a setter, and unpacked into the targets of an unpacking. */
  lemma {:induction false} LoweredForm(x: Exports, self: Option<LocalId>, op: Operator, operands: seq<Node>)
    requires ExportFor(x, self, op, |operands|).Use? && LowerAll(x, self, operands).Some?
    ensures var lowered := LowerAll(x, self, operands).value;
            var own := if op.GetGlobal? || op.SetGlobal? then [Local(self.value)] else [];
            var args := own + if (op.SetAttr? || op.SetSubscript?) && |lowered| == 3
                              then [lowered[1], lowered[2], lowered[0]] else lowered;
            var code := ExportFor(x, self, op, |operands|).code;
            var call := Structure(DirectCall(code, Shape(false, |args|, [], false, false)), args);
            Lower(x, self, Apply(op, operands)) == Some(
              match op
              case SetGlobal => Structure(Discard, [call])
              case SetAttr => Structure(Discard, [call])
              case SetSubscript => Structure(Discard, [call])
              case UnpackSequence(targets) => Structure(Assign(targets), [call])
              case _ => call)
  {
  }

  // ------------------------------------------------------- told by the tree

  /** A tree and all trees below it. */
  function Parts(n: Node): set<Node>
    decreases n
  {
    {n} + match n
          case Apply(_, operands) => PartsOfAll(operands)
          case Structure(_, children) => PartsOfAll(children)
          case _ => {}
  }

  function PartsOfAll(ns: seq<Node>): set<Node>
    decreases ns
  {
    if ns == [] then {} else Parts(ns[0]) + PartsOfAll(ns[1..])
  }

  /** The operator at the root of a part has nothing exported for it and stays. */
  ghost predicate Stays(x: Exports, part: Node) {
    part.Apply? ==> Optional(part.op) && !Exported(x, part.op, |part.operands|)
  }

  /** Lowering fails at the root of a part: nothing is exported for an operator that
      needs it, or a global is accessed in a function without an own local. */
  ghost predicate FailsAt(x: Exports, self: Option<LocalId>, part: Node) {
    && part.Apply?
    && var exported := Exported(x, part.op, |part.operands|);
       if part.op.GetGlobal? || part.op.SetGlobal? then exported && self.None?
       else !exported && !Optional(part.op)
  }

  lemma {:induction false} SettledParts(x: Exports, self: Option<LocalId>, n: Node)
    requires Settled(x, self, n)
    ensures forall part :: part in Parts(n) ==> Stays(x, part)
    decreases n
  {
    match n
    case Apply(op, operands) =>
      ExportForExactly(x, self, op, |operands|);
      SettledPartsOfAll(x, self, operands);
    case Structure(_, children) => SettledPartsOfAll(x, self, children);
    case _ =>
  }

  lemma {:induction false} SettledPartsOfAll(x: Exports, self: Option<LocalId>, ns: seq<Node>)
    requires SettledAll(x, self, ns)
    ensures forall part :: part in PartsOfAll(ns) ==> Stays(x, part)
    decreases ns
  {
    if ns != [] {
      SettledParts(x, self, ns[0]);
      SettledPartsOfAll(x, self, ns[1..]);
    }
  }

  lemma {:induction false} LowerableParts(x: Exports, self: Option<LocalId>, n: Node)
    ensures Lowerable(x, self, n) <==> forall part :: part in Parts(n) ==> !FailsAt(x, self, part)
    decreases n
  {
    match n
    case Apply(op, operands) =>
      ExportForExactly(x, self, op, |operands|);
      assert ExportFor(x, self, op, |operands|).Missing? <==> FailsAt(x, self, n);
      LowerablePartsOfAll(x, self, operands);
    case Structure(_, children) => LowerablePartsOfAll(x, self, children);
    case _ =>
  }

  lemma {:induction false} LowerablePartsOfAll(x: Exports, self: Option<LocalId>, ns: seq<Node>)
    ensures LowerableAll(x, self, ns) <==> forall part :: part in PartsOfAll(ns) ==> !FailsAt(x, self, part)
    decreases ns
  {
    if ns != [] {
      LowerableParts(x, self, ns[0]);
      LowerablePartsOfAll(x, self, ns[1..]);
    }
  }

  /** Lowering succeeds exactly when it fails at no part, and then nothing is left
      for which something is exported. */
  lemma {:induction false} LoweringTellsByTheTree(x: Exports, self: Option<LocalId>, n: Node)
    ensures Lower(x, self, n).Some? <==> forall part :: part in Parts(n) ==> !FailsAt(x, self, part)
    ensures Lower(x, self, n).Some? ==> forall part :: part in Parts(Lower(x, self, n).value) ==> Stays(x, part)
  {
    LoweringSucceedsWhenLowerable(x, self, n);
    LowerableParts(x, self, n);
    if Lower(x, self, n).Some? {
      LoweredIsSettled(x, self, n);
      SettledParts(x, self, Lower(x, self, n).value);
    }
  }

  // -------------------------------------------------------------- in place

  /** A code object, lowered in place once. */
  class Code {
    const selfparam: Option<LocalId>
    var body: Node
    var lowered: bool

    constructor (selfparam: Option<LocalId>, body: Node)
      ensures this.selfparam == selfparam && this.body == body && !lowered
    {
      this.selfparam, this.body, lowered := selfparam, body, false;
    }

    /** `callConverter`: a missing export leaves the code as it was; a code already
        lowered is not touched again. */
    method Convert(x: Exports) returns (ok: bool)
      modifies this
      ensures ok <==> old(lowered) || Lowerable(x, selfparam, old(body))
      ensures ok <==> old(lowered) || forall part :: part in Parts(old(body)) ==> !FailsAt(x, selfparam, part)
      ensures ok && !old(lowered) ==> forall part :: part in Parts(body) ==> Stays(x, part)
      ensures ok && !old(lowered) ==>
                  lowered && Lower(x, selfparam, old(body)) == Some(body) && Settled(x, selfparam, body)
      ensures !ok || old(lowered) ==> body == old(body) && lowered == old(lowered)
    {
      if lowered {
        return true;
      }
      LoweringSucceedsWhenLowerable(x, selfparam, body);
      LoweringTellsByTheTree(x, selfparam, body);
      var converted := Lower(x, selfparam, body);
      if converted.None? {
        return false;
      }
      LoweredIsSettled(x, selfparam, body);
      body := converted.value;
      lowered := true;
      ok := true;
    }
  }
}
