/** The part of the compiler's tree that argument passing depends on
    (src/pyflow/language/python/ast.py), with an evaluator. Locals are known by
    identity; a store is threaded through so that calls may have effects.
    Every call carries its target facts, and a run that leaves them is reported
    as such instead of continuing. */
module CallIR {
  import opened Wrappers

  type LocalId = nat
  type CodeId = nat

  datatype Value =
    | NoneValue
    | Int(n: int)
    | Tuple(items: seq<Value>)
    | Dict(entries: seq<Entry>)
    | Function(code: CodeId)

  datatype Entry = Entry(name: string, value: Value)

  datatype Keyword = Keyword(name: string, value: Expr)

  /** Actual arguments: positional, keyword, `*star` and `**doubleStar`. */
  datatype Args = Args(positional: seq<Expr>, keywords: seq<Keyword>, star: Option<Expr>, doubleStar: Option<Expr>)

  datatype Expr =
    | Local(id: LocalId)
    | Existing(value: Value)
    | Operation(name: string, operands: seq<Expr>)
    | Call(callee: Expr, args: Args, targets: set<CodeId>)
    | MethodCall(receiver: Expr, methodName: Expr, args: Args, targets: set<CodeId>)
    | DirectCall(code: CodeId, selfarg: Option<Expr>, args: Args, targets: set<CodeId>)

  datatype Stmt =
    | Assign(value: Expr, target: LocalId)
    | Discard(value: Expr)
    | Return(value: Expr)
    | Switch(condition: Expr, whenTrue: seq<Stmt>, whenFalse: seq<Stmt>)
    | While(condition: Expr, body: seq<Stmt>)

  /** `CodeParameters`; defaults stand for their values and belong to the last
      parameters. A name of None cannot be matched by a keyword. */
  datatype Parameters = Parameters(
    selfparam: Option<LocalId>, posonly: seq<LocalId>, params: seq<LocalId>, names: seq<Option<string>>,
    defaults: seq<Value>, vparam: Option<LocalId>, kparam: Option<LocalId>)

  datatype Code = Code(parameters: Parameters, body: seq<Stmt>)

  type Program = map<CodeId, Code>

  // ------------------------------------------------------------- evaluation

  type Store = map<nat, Value>
  type Env = map<LocalId, Value>

  datatype Outcome<+T> =
    | Done(value: T, store: Store)
    | Raised(reason: string, store: Store)
    | OutOfFuel
    | FactsViolated
  {
    predicate IsFailure() { !Done? }

    function PropagateFailure<U>(): Outcome<U>
      requires IsFailure()
    {
      match this
      case Raised(reason, store) => Raised(reason, store)
      case OutOfFuel => OutOfFuel
      case FactsViolated => FactsViolated
    }

    function Extract(): (T, Store)
      requires Done?
    {
      (value, store)
    }
  }

  /** What operations and attribute lookups mean. */
  datatype Machine = Machine(
    apply: (string, seq<Value>, Store) -> Outcome<Value>, lookup: (Value, Value) -> Option<CodeId>)

  datatype Actuals = Actuals(positional: seq<Value>, keywords: seq<Entry>)

  function Zip(locals: seq<LocalId>, values: seq<Value>): Env
    requires |locals| == |values|
  {
    if locals == [] then map[]
    else Zip(locals[..|locals| - 1], values[..|values| - 1])[locals[|locals| - 1] := values[|values| - 1]]
  }

  /** The slot a keyword names, if any. */
  function SlotNamed(names: seq<Option<string>>, name: string, i: nat := 0): Option<nat>
    requires i <= |names|
    ensures SlotNamed(names, name, i).Some? ==> SlotNamed(names, name, i).value < |names|
    decreases |names| - i
  {
    if i == |names| then None
    else if names[i] == Some(name) then Some(i)
    else SlotNamed(names, name, i + 1)
  }

  /** Slots filled by keywords, and the keywords left for `**kparam`. */
  function BindKeywords(
    p: Parameters, slots: seq<Option<Value>>, keywords: seq<Entry>): Option<(seq<Option<Value>>, seq<Entry>)>
    requires |slots| == |p.posonly| + |p.params| && |p.names| == |p.params|
    ensures BindKeywords(p, slots, keywords).Some? ==> |BindKeywords(p, slots, keywords).value.0| == |slots|
    decreases |keywords|
  {
    if keywords == [] then Some((slots, []))
    else
      var k := keywords[0];
      match SlotNamed(p.names, k.name)
      case Some(j) =>
        var at := |p.posonly| + j;
        if slots[at].Some? then None else BindKeywords(p, slots[at := Some(k.value)], keywords[1..])
      case None =>
        if p.kparam.None? then None
        else
          match BindKeywords(p, slots, keywords[1..])
          case None => None
          case Some((filled, rest)) => Some((filled, [k] + rest))
  }

  /** Empty slots take their defaults, which belong to the last slots. */
  function FillDefaults(slots: seq<Option<Value>>, defaults: seq<Value>): Option<seq<Value>>
    ensures FillDefaults(slots, defaults).Some? ==> |FillDefaults(slots, defaults).value| == |slots|
  {
    if slots == [] then Some([])
    else
      var last := slots[|slots| - 1];
      var rest := FillDefaults(slots[..|slots| - 1], if defaults == [] then [] else defaults[..|defaults| - 1]);
      if rest.None? || (last.None? && defaults == []) then None
      else Some(rest.value + [if last.Some? then last.value else defaults[|defaults| - 1]])
  }

  function Min(a: nat, b: nat): nat { if a < b then a else b }

  function OptionalBinding(local: Option<LocalId>, value: Value): Env {
    if local.Some? then map[local.value := value] else map[]
  }

  /** The slots that positional arguments fill. */
  function PositionalSlots(n: nat, positional: seq<Value>): (slots: seq<Option<Value>>)
    ensures |slots| == n
  {
    seq(n, i requires 0 <= i < n => if i < |positional| then Some(positional[i]) else None)
  }

  /** Python's argument binding. */
  function Bind(p: Parameters, self: Option<Value>, a: Actuals): Option<Env> {
    var n := |p.posonly| + |p.params|;
    var given := Min(n, |a.positional|);
    if |p.names| != |p.params| || (|a.positional| > n && p.vparam.None?) then None
    else
      match BindKeywords(p, PositionalSlots(n, a.positional), a.keywords)
      case None => None
      case Some((filled, rest)) =>
        match FillDefaults(filled, p.defaults)
        case None => None
        case Some(values) =>
          Some(OptionalBinding(p.selfparam, self.GetOr(NoneValue))
               + OptionalBinding(p.kparam, Dict(rest))
               + Zip(p.posonly + p.params, values)
               + OptionalBinding(p.vparam, Tuple(a.positional[given..])))
  }

  // ---------------------------------------------------- what binding means

  /** A keyword names this slot: the first parameter with its name. */
  ghost predicate NamesSlot(p: Parameters, k: Entry, at: int) {
    && |p.posonly| <= at < |p.posonly| + |p.names|
    && p.names[at - |p.posonly|] == Some(k.name)
    && forall j :: 0 <= j < at - |p.posonly| ==> p.names[j] != Some(k.name)
  }

  lemma {:induction false} SlotNamedMeans(names: seq<Option<string>>, name: string, i: nat)
    requires i <= |names|
    ensures var r := SlotNamed(names, name, i);
            && (r.Some? ==> i <= r.value && names[r.value] == Some(name)
                            && forall j :: i <= j < r.value ==> names[j] != Some(name))
            && (r.None? ==> forall j :: i <= j < |names| ==> names[j] != Some(name))
    decreases |names| - i
  {
    if i < |names| && names[i] != Some(name) {
      SlotNamedMeans(names, name, i + 1);
    }
  }

  ghost predicate Unnamed(p: Parameters, k: Entry) {
    forall j :: 0 <= j < |p.names| ==> p.names[j] != Some(k.name)
  }

  /** Keywords can be bound: no slot is named that is filled or named by another, and
      there is a `**kparam` when some keyword names none. */
  ghost predicate KeywordsFit(p: Parameters, slots: seq<Option<Value>>, keywords: seq<Entry>) {
    && (forall k, at :: 0 <= k < |keywords| && at < |slots| && NamesSlot(p, keywords[k], at) ==> slots[at].None?)
    && (forall k, l, at :: 0 <= k < l < |keywords| && NamesSlot(p, keywords[k], at) ==> !NamesSlot(p, keywords[l], at))
    && (forall k :: 0 <= k < |keywords| && Unnamed(p, keywords[k]) ==> p.kparam.Some?)
  }

  /** What a slot holds then. */
  ghost predicate SlotHolds(
    p: Parameters, slots: seq<Option<Value>>, keywords: seq<Entry>, filled: seq<Option<Value>>, at: nat)
    requires at < |slots| == |filled|
  {
    && (slots[at].Some? ==> filled[at] == slots[at])
    && (forall k :: 0 <= k < |keywords| && NamesSlot(p, keywords[k], at) ==> filled[at] == Some(keywords[k].value))
    && (slots[at].None? && (forall k :: 0 <= k < |keywords| ==> !NamesSlot(p, keywords[k], at)) ==> filled[at].None?)
  }

  lemma {:induction false} KeywordsMean(p: Parameters, slots: seq<Option<Value>>, keywords: seq<Entry>)
    requires |slots| == |p.posonly| + |p.params| && |p.names| == |p.params|
    ensures BindKeywords(p, slots, keywords).Some? <==> KeywordsFit(p, slots, keywords)
    ensures KeywordsFit(p, slots, keywords) ==>
              var filled := BindKeywords(p, slots, keywords).value.0;
              forall at :: 0 <= at < |slots| ==> SlotHolds(p, slots, keywords, filled, at)
    decreases |keywords|
  {
    if keywords != [] {
      var k, rest := keywords[0], keywords[1..];
      SlotNamedMeans(p.names, k.name, 0);
      match SlotNamed(p.names, k.name)
      case Some(j) =>
        var at := |p.posonly| + j;
        assert NamesSlot(p, k, at);
        if slots[at].None? {
          KeywordsMean(p, slots[at := Some(k.value)], rest);
          NamedFirst(p, slots, keywords, at);
          if KeywordsFit(p, slots, keywords) {
            var filled := BindKeywords(p, slots, keywords).value.0;
            NamedFills(p, slots, keywords, at, filled, slots[at := Some(k.value)], rest);
          }
        }
      case None =>
        KeywordsMean(p, slots, rest);
        UnnamedFirst(p, slots, keywords);
        if KeywordsFit(p, slots, keywords) {
          UnnamedFills(p, slots, keywords, BindKeywords(p, slots, keywords).value.0);
        }
    }
  }

  lemma {:induction false} NamedFirst(p: Parameters, slots: seq<Option<Value>>, keywords: seq<Entry>, at: nat)
    requires keywords != [] && at < |slots| && NamesSlot(p, keywords[0], at) && slots[at].None?
    ensures KeywordsFit(p, slots[at := Some(keywords[0].value)], keywords[1..]) <==> KeywordsFit(p, slots, keywords)
  {
    var rest, more := keywords[1..], slots[at := Some(keywords[0].value)];
    assert forall k :: 0 < k < |keywords| ==> keywords[k] == rest[k - 1];
    assert !Unnamed(p, keywords[0]);
    assert forall other :: NamesSlot(p, keywords[0], other) ==> other == at;
    if KeywordsFit(p, more, rest) {
      forall k, l, other | 0 <= k < l < |keywords| && NamesSlot(p, keywords[k], other)
        ensures !NamesSlot(p, keywords[l], other)
      {
        if k == 0 {
          assert other == at && more[at].Some?;
        } else {
          assert keywords[k] == rest[k - 1] && keywords[l] == rest[l - 1];
        }
      }
      forall k, other | 0 <= k < |keywords| && other < |slots| && NamesSlot(p, keywords[k], other)
        ensures slots[other].None?
      {
        if k > 0 {
          assert NamesSlot(p, rest[k - 1], other) && more[other].None?;
        }
      }
    }
    if KeywordsFit(p, slots, keywords) {
      forall k, other | 0 <= k < |rest| && other < |more| && NamesSlot(p, rest[k], other)
        ensures more[other].None?
      {
        assert NamesSlot(p, keywords[k + 1], other) && slots[other].None?;
        assert other != at;
      }
      forall k, l, other | 0 <= k < l < |rest| && NamesSlot(p, rest[k], other)
        ensures !NamesSlot(p, rest[l], other)
      {
        assert rest[k] == keywords[k + 1] && rest[l] == keywords[l + 1];
      }
    }
  }

  lemma {:induction false} NamedFills(
    p: Parameters, slots: seq<Option<Value>>, keywords: seq<Entry>, at: nat, filled: seq<Option<Value>>,
    more: seq<Option<Value>>, rest: seq<Entry>)
    requires keywords != [] && at < |slots| == |filled| && NamesSlot(p, keywords[0], at) && slots[at].None?
    requires KeywordsFit(p, slots, keywords) && more == slots[at := Some(keywords[0].value)] && rest == keywords[1..]
    requires forall other :: 0 <= other < |slots| ==> SlotHolds(p, more, rest, filled, other)
    ensures forall other :: 0 <= other < |slots| ==> SlotHolds(p, slots, keywords, filled, other)
  {
    forall other | 0 <= other < |slots|
      ensures SlotHolds(p, slots, keywords, filled, other)
    {
      assert SlotHolds(p, more, rest, filled, other);
      forall k | 0 <= k < |keywords| && NamesSlot(p, keywords[k], other)
        ensures filled[other] == Some(keywords[k].value)
      {
        assert k > 0 ==> keywords[k] == rest[k - 1];
      }
      assert forall k :: 0 <= k < |rest| ==> rest[k] == keywords[k + 1];
    }
  }

  lemma {:induction false} UnnamedFirst(p: Parameters, slots: seq<Option<Value>>, keywords: seq<Entry>)
    requires keywords != [] && Unnamed(p, keywords[0])
    ensures KeywordsFit(p, slots, keywords) <==> p.kparam.Some? && KeywordsFit(p, slots, keywords[1..])
  {
    var rest := keywords[1..];
    assert forall k :: 0 <= k < |rest| ==> rest[k] == keywords[k + 1];
    assert forall k :: 0 < k < |keywords| ==> keywords[k] == rest[k - 1];
    assert forall at :: !NamesSlot(p, keywords[0], at);
  }

  lemma {:induction false} UnnamedFills(
    p: Parameters, slots: seq<Option<Value>>, keywords: seq<Entry>, filled: seq<Option<Value>>)
    requires keywords != [] && |slots| == |filled| && Unnamed(p, keywords[0])
    requires forall at :: 0 <= at < |slots| ==> SlotHolds(p, slots, keywords[1..], filled, at)
    ensures forall at :: 0 <= at < |slots| ==> SlotHolds(p, slots, keywords, filled, at)
  {
    var rest := keywords[1..];
    forall at | 0 <= at < |slots|
      ensures SlotHolds(p, slots, keywords, filled, at)
    {
      assert SlotHolds(p, slots, rest, filled, at) && !NamesSlot(p, keywords[0], at);
      forall k | 0 <= k < |keywords| && NamesSlot(p, keywords[k], at)
        ensures filled[at] == Some(keywords[k].value)
      {
        assert keywords[k] == rest[k - 1];
      }
      assert forall k :: 0 <= k < |rest| ==> rest[k] == keywords[k + 1];
    }
  }

  /** Defaults belong to the last slots: an empty slot takes its own, and binding
      fails when it has none. */
  lemma {:induction false} DefaultsMean(slots: seq<Option<Value>>, defaults: seq<Value>)
    ensures FillDefaults(slots, defaults).Some? <==>
              forall i :: 0 <= i < |slots| && slots[i].None? ==> i + |defaults| >= |slots|
    ensures FillDefaults(slots, defaults).Some? ==>
              forall i :: 0 <= i < |slots| ==>
                FillDefaults(slots, defaults).value[i]
                == if slots[i].Some? then slots[i].value else defaults[i + |defaults| - |slots|]
  {
    if slots != [] {
      var shorter, fewer := slots[..|slots| - 1], if defaults == [] then [] else defaults[..|defaults| - 1];
      DefaultsMean(shorter, fewer);
      assert forall i :: 0 <= i < |shorter| ==> shorter[i] == slots[i];
      if forall i :: 0 <= i < |slots| && slots[i].None? ==> i + |defaults| >= |slots| {
        forall i | 0 <= i < |shorter| && shorter[i].None?
          ensures i + |fewer| >= |shorter|
        {
          assert slots[i].None?;
        }
      }
    }
  }

  /** When a call binds, and to what: positional arguments fill the slots in order, no
      more than there are without `*args`; keywords fit the empty ones; what is still
      empty has a default. */
  lemma {:induction false} BindMeans(p: Parameters, self: Option<Value>, a: Actuals)
    requires |p.names| == |p.params|
    ensures var n := |p.posonly| + |p.params|;
            var slots := PositionalSlots(n, a.positional);
            && (Bind(p, self, a).Some? <==>
                  && (|a.positional| <= n || p.vparam.Some?) && KeywordsFit(p, slots, a.keywords)
                  && forall at :: 0 <= at < n && StaysEmpty(p, slots, a.keywords, at) ==> at + |p.defaults| >= n)
            && (forall i :: 0 <= i < n ==> slots[i] == if i < |a.positional| then Some(a.positional[i]) else None)
  {
    var n := |p.posonly| + |p.params|;
    var slots := PositionalSlots(n, a.positional);
    KeywordsMean(p, slots, a.keywords);
    if KeywordsFit(p, slots, a.keywords) {
      var filled := BindKeywords(p, slots, a.keywords).value.0;
      DefaultsMean(filled, p.defaults);
      forall at | 0 <= at < n
        ensures filled[at].None? <==> StaysEmpty(p, slots, a.keywords, at)
      {
        assert SlotHolds(p, slots, a.keywords, filled, at);
      }
    }
  }

  ghost predicate StaysEmpty(p: Parameters, slots: seq<Option<Value>>, keywords: seq<Entry>, at: nat)
    requires at < |slots|
  {
    slots[at].None? && forall k :: 0 <= k < |keywords| ==> !NamesSlot(p, keywords[k], at)
  }

  /** The values of the slots once keywords and defaults have filled them. */
  function SlotValues(p: Parameters, self: Option<Value>, a: Actuals): (values: seq<Value>)
    requires |p.names| == |p.params| && Bind(p, self, a).Some?
    ensures |values| == |p.posonly| + |p.params|
  {
    var slots := PositionalSlots(|p.posonly| + |p.params|, a.positional);
    FillDefaults(BindKeywords(p, slots, a.keywords).value.0, p.defaults).value
  }

  /** All locals of the parameters differ. */
  ghost predicate DifferentLocals(p: Parameters) {
    var locals := p.posonly + p.params;
    && (forall i, j :: 0 <= i < j < |locals| ==> locals[i] != locals[j])
    && (p.vparam.Some? ==> p.vparam.value !in locals)
    && (p.kparam.Some? ==> p.kparam.value !in locals && p.kparam != p.vparam)
    && (p.selfparam.Some? ==> p.selfparam.value !in locals && p.selfparam != p.vparam && p.selfparam != p.kparam)
  }

  /** The keywords that name no parameter, in order. */
  function LeftOver(p: Parameters, keywords: seq<Entry>): seq<Entry> {
    if keywords == [] then []
    else
      (if forall j :: 0 <= j < |p.names| ==> p.names[j] != Some(keywords[0].name) then [keywords[0]] else [])
      + LeftOver(p, keywords[1..])
  }

  lemma {:induction false} LeftOverIsRest(p: Parameters, slots: seq<Option<Value>>, keywords: seq<Entry>)
    requires |slots| == |p.posonly| + |p.params| && |p.names| == |p.params|
    requires BindKeywords(p, slots, keywords).Some?
    ensures BindKeywords(p, slots, keywords).value.1 == LeftOver(p, keywords)
    decreases |keywords|
  {
    if keywords != [] {
      SlotNamedMeans(p.names, keywords[0].name, 0);
      match SlotNamed(p.names, keywords[0].name)
      case Some(j) => LeftOverIsRest(p, slots[|p.posonly| + j := Some(keywords[0].value)], keywords[1..]);
      case None => LeftOverIsRest(p, slots, keywords[1..]);
    }
  }

  /** The locals of a call: each slot its value, `*args` the positional arguments too
      many, `**kwargs` the keywords that name no parameter, and the own receiver. */
  lemma {:induction false} BoundLocals(p: Parameters, self: Option<Value>, a: Actuals, at: nat)
    requires |p.names| == |p.params| && DifferentLocals(p) && Bind(p, self, a).Some?
    requires at < |p.posonly| + |p.params|
    ensures var env, local := Bind(p, self, a).value, (p.posonly + p.params)[at];
            local in env && env[local] == SlotValues(p, self, a)[at]
  {
    var values := SlotValues(p, self, a);
    ZipHolds(p.posonly + p.params, values, at);
  }

  lemma {:induction false} BoundOthers(p: Parameters, self: Option<Value>, a: Actuals)
    requires |p.names| == |p.params| && DifferentLocals(p) && Bind(p, self, a).Some?
    ensures var env, n := Bind(p, self, a).value, |p.posonly| + |p.params|;
            && (p.vparam.Some? ==>
                  && p.vparam.value in env
                  && env[p.vparam.value] == Tuple(if |a.positional| <= n then [] else a.positional[n..]))
            && (p.kparam.Some? ==> p.kparam.value in env && env[p.kparam.value] == Dict(LeftOver(p, a.keywords)))
            && (p.selfparam.Some? ==> p.selfparam.value in env && env[p.selfparam.value] == self.GetOr(NoneValue))
  {
    var n := |p.posonly| + |p.params|;
    LeftOverIsRest(p, PositionalSlots(n, a.positional), a.keywords);
    ZipHasLocals(p.posonly + p.params, SlotValues(p, self, a));
  }

  lemma {:induction false} ZipHasLocals(locals: seq<LocalId>, values: seq<Value>)
    requires |locals| == |values|
    ensures forall x :: x in Zip(locals, values) <==> x in locals
  {
    if locals != [] {
      ZipHasLocals(locals[..|locals| - 1], values[..|values| - 1]);
      assert locals == locals[..|locals| - 1] + [locals[|locals| - 1]];
    }
  }

  /** What a slot's value is: its positional argument, else the keyword that names it,
      else its default. */
  lemma {:induction false} BoundValues(p: Parameters, self: Option<Value>, a: Actuals, at: nat)
    requires |p.names| == |p.params| && Bind(p, self, a).Some? && at < |p.posonly| + |p.params|
    ensures var value := SlotValues(p, self, a)[at];
            && (at < |a.positional| ==> value == a.positional[at])
            && (forall k :: 0 <= k < |a.keywords| && NamesSlot(p, a.keywords[k], at) ==> value == a.keywords[k].value)
            && (StaysEmpty(p, PositionalSlots(|p.posonly| + |p.params|, a.positional), a.keywords, at) ==>
                  var d := at + |p.defaults| - (|p.posonly| + |p.params|);
                  0 <= d < |p.defaults| && value == p.defaults[d])
  {
    var slots := PositionalSlots(|p.posonly| + |p.params|, a.positional);
    KeywordsMean(p, slots, a.keywords);
    var filled := BindKeywords(p, slots, a.keywords).value.0;
    assert SlotHolds(p, slots, a.keywords, filled, at);
    DefaultsMean(filled, p.defaults);
    assert filled[at].None? ==> at + |p.defaults| >= |filled|;
  }

  lemma {:induction false} ZipHolds(locals: seq<LocalId>, values: seq<Value>, at: nat)
    requires |locals| == |values| && at < |locals|
    requires forall i, j :: 0 <= i < j < |locals| ==> locals[i] != locals[j]
    ensures locals[at] in Zip(locals, values) && Zip(locals, values)[locals[at]] == values[at]
    decreases |locals|
  {
    if at < |locals| - 1 {
      ZipHolds(locals[..|locals| - 1], values[..|values| - 1], at);
    }
  }

  predicate Truthy(v: Value) { v != NoneValue && v != Int(0) && v != Tuple([]) && v != Dict([]) }

  function Eval(m: Machine, p: Program, fuel: nat, env: Env, h: Store, e: Expr): Outcome<Value>
    decreases fuel, 1, e
  {
    match e
    case Local(id) => if id in env then Done(env[id], h) else Raised("unbound local", h)
    case Existing(value) => Done(value, h)
    case Operation(name, operands) =>
      var (values, h1) :- EvalAll(m, p, fuel, env, h, operands);
      m.apply(name, values, h1)
    case Call(callee, args, targets) =>
      var (f, h1) :- Eval(m, p, fuel, env, h, callee);
      var (actuals, h2) :- EvalArgs(m, p, fuel, env, h1, args);
      if f.Function? then Apply(m, p, fuel, f.code, Some(f), actuals, targets, h2) else Raised("not callable", h2)
    case MethodCall(receiver, methodName, args, targets) =>
      var (self, h1) :- Eval(m, p, fuel, env, h, receiver);
      var (name, h2) :- Eval(m, p, fuel, env, h1, methodName);
      var (actuals, h3) :- EvalArgs(m, p, fuel, env, h2, args);
      var found := m.lookup(self, name);
      if found.None? then Raised("no attribute", h3)
      else Apply(m, p, fuel, found.value, Some(self), actuals, targets, h3)
    case DirectCall(code, selfarg, args, targets) =>
      var (self, h1) :- EvalOptional(m, p, fuel, env, h, selfarg);
      var (actuals, h2) :- EvalArgs(m, p, fuel, env, h1, args);
      Apply(m, p, fuel, code, self, actuals, targets, h2)
  }

  function EvalAll(m: Machine, p: Program, fuel: nat, env: Env, h: Store, es: seq<Expr>): Outcome<seq<Value>>
    decreases fuel, 1, es
  {
    if es == [] then Done([], h)
    else
      var (v, h1) :- Eval(m, p, fuel, env, h, es[0]);
      var (vs, h2) :- EvalAll(m, p, fuel, env, h1, es[1..]);
      Done([v] + vs, h2)
  }

  function EvalKeywords(m: Machine, p: Program, fuel: nat, env: Env, h: Store, ks: seq<Keyword>): Outcome<seq<Entry>>
    decreases fuel, 1, ks
  {
    if ks == [] then Done([], h)
    else
      var (v, h1) :- Eval(m, p, fuel, env, h, ks[0].value);
      var (vs, h2) :- EvalKeywords(m, p, fuel, env, h1, ks[1..]);
      Done([Entry(ks[0].name, v)] + vs, h2)
  }

  function EvalOptional(m: Machine, p: Program, fuel: nat, env: Env, h: Store, e: Option<Expr>): Outcome<Option<Value>>
    decreases fuel, 1, e
  {
    match e
    case None => Done(None, h)
    case Some(x) =>
      var (v, h1) :- Eval(m, p, fuel, env, h, x);
      Done(Some(v), h1)
  }

  /** Positional, keyword, star and double-star arguments, in that order. */
  function EvalArgs(m: Machine, p: Program, fuel: nat, env: Env, h: Store, a: Args): Outcome<Actuals>
    decreases fuel, 1, a
  {
    var (positional, h1) :- EvalAll(m, p, fuel, env, h, a.positional);
    var (keywords, h2) :- EvalKeywords(m, p, fuel, env, h1, a.keywords);
    var (star, h3) :- EvalOptional(m, p, fuel, env, h2, a.star);
    var (doubleStar, h4) :- EvalOptional(m, p, fuel, env, h3, a.doubleStar);
    if star.Some? && !star.value.Tuple? then Raised("argument after * must be iterable", h4)
    else if doubleStar.Some? && !doubleStar.value.Dict? then Raised("argument after ** must be a mapping", h4)
    else Done(Actuals(positional + (if star.Some? then star.value.items else []),
                      keywords + (if doubleStar.Some? then doubleStar.value.entries else [])), h4)
  }

  /** A call that the target facts foresee. */
  function Apply(
    m: Machine, p: Program, fuel: nat, code: CodeId, self: Option<Value>, a: Actuals, targets: set<CodeId>, h: Store)
    : Outcome<Value>
    decreases fuel, 0
  {
    if code !in targets then FactsViolated
    else if fuel == 0 then OutOfFuel
    else Invoke(m, p, fuel - 1, code, self, a, h)
  }

  function Invoke(
    m: Machine, p: Program, fuel: nat, code: CodeId, self: Option<Value>, a: Actuals, h: Store): Outcome<Value>
    decreases fuel, 2
  {
    if code !in p then Raised("no such code", h)
    else
      match Bind(p[code].parameters, self, a)
      case None => Raised("bad call", h)
      case Some(env) =>
        var (flow, h1) :- Exec(m, p, fuel, env, h, p[code].body);
        Done(if flow.Returned? then flow.value else NoneValue, h1)
  }

  datatype Flow = Running(env: Env) | Returned(value: Value)

  function ExecOne(m: Machine, p: Program, fuel: nat, env: Env, h: Store, s: Stmt): Outcome<Flow>
    decreases fuel, 1, s
  {
    match s
    case Assign(value, target) =>
      var (v, h1) :- Eval(m, p, fuel, env, h, value);
      Done(Running(env[target := v]), h1)
    case Discard(value) =>
      var (v, h1) :- Eval(m, p, fuel, env, h, value);
      Done(Running(env), h1)
    case Return(value) =>
      var (v, h1) :- Eval(m, p, fuel, env, h, value);
      Done(Returned(v), h1)
    case Switch(condition, whenTrue, whenFalse) =>
      var (v, h1) :- Eval(m, p, fuel, env, h, condition);
      if Truthy(v) then Exec(m, p, fuel, env, h1, whenTrue) else Exec(m, p, fuel, env, h1, whenFalse)
    case While(condition, body) =>
      var (v, h1) :- Eval(m, p, fuel, env, h, condition);
      if !Truthy(v) then Done(Running(env), h1)
      else
        var (flow, h2) :- Exec(m, p, fuel, env, h1, body);
        if flow.Returned? then Done(flow, h2)
        else if fuel == 0 then OutOfFuel
        else ExecOne(m, p, fuel - 1, flow.env, h2, s)
  }

  function Exec(m: Machine, p: Program, fuel: nat, env: Env, h: Store, ss: seq<Stmt>): Outcome<Flow>
    decreases fuel, 1, ss
  {
    if ss == [] then Done(Running(env), h)
    else
      var (flow, h1) :- ExecOne(m, p, fuel, env, h, ss[0]);
      if flow.Returned? then Done(flow, h1) else Exec(m, p, fuel, flow.env, h1, ss[1..])
  }
}
