/** Replacing `*args` of known length by explicit parameters
    (src/pyflow/optimization/argumentnormalization.py): what the transformation
    rewrites, what its guards check, and that no call of the program can tell. */
module ArgumentNormalization {
  import opened Wrappers
  import opened CallIR

  // -------------------------------------------------------- transformation

  /** `Keep` leaves a body alone; `Spread` passes the extra parameters wherever
      the variadic local was passed as `*args`. */
  datatype Rewriting = Keep | Spread(v: LocalId, extra: seq<LocalId>)

  function Locals(ids: seq<LocalId>): seq<Expr> {
    if ids == [] then [] else [Local(ids[0])] + Locals(ids[1..])
  }

  predicate PassesVariadic(r: Rewriting, a: Args) {
    r.Spread? && a.star == Some(Local(r.v))
  }

  function Rewrite(r: Rewriting, e: Expr): Expr {
    match e
    case Local(_) => e
    case Existing(_) => e
    case Operation(name, operands) => Operation(name, RewriteAll(r, operands))
    case Call(callee, args, targets) => Call(Rewrite(r, callee), RewriteArgs(r, args), targets)
    case MethodCall(receiver, methodName, args, targets) =>
      MethodCall(Rewrite(r, receiver), if PassesVariadic(r, args) then methodName else Rewrite(r, methodName),
                 RewriteArgs(r, args), targets)
    case DirectCall(code, selfarg, args, targets) =>
      DirectCall(code, RewriteOptional(r, selfarg), RewriteArgs(r, args), targets)
  }

  function RewriteAll(r: Rewriting, es: seq<Expr>): seq<Expr> {
    if es == [] then [] else [Rewrite(r, es[0])] + RewriteAll(r, es[1..])
  }

  function RewriteKeywords(r: Rewriting, ks: seq<Keyword>): seq<Keyword> {
    if ks == [] then [] else [Keyword(ks[0].name, Rewrite(r, ks[0].value))] + RewriteKeywords(r, ks[1..])
  }

  function RewriteOptional(r: Rewriting, e: Option<Expr>): Option<Expr> {
    match e
    case None => None
    case Some(x) => Some(Rewrite(r, x))
  }

  function RewriteArgs(r: Rewriting, a: Args): Args {
    var positional, keywords := RewriteAll(r, a.positional), RewriteKeywords(r, a.keywords);
    var doubleStar := RewriteOptional(r, a.doubleStar);
    if PassesVariadic(r, a) then Args(positional + Locals(r.extra), keywords, None, doubleStar)
    else Args(positional, keywords, RewriteOptional(r, a.star), doubleStar)
  }

  function RewriteStmt(r: Rewriting, s: Stmt): Stmt {
    match s
    case Assign(value, target) => Assign(Rewrite(r, value), target)
    case Discard(value) => Discard(Rewrite(r, value))
    case Return(value) => Return(Rewrite(r, value))
    case Switch(condition, whenTrue, whenFalse) =>
      Switch(Rewrite(r, condition), RewriteBody(r, whenTrue), RewriteBody(r, whenFalse))
    case While(condition, body) => While(Rewrite(r, condition), RewriteBody(r, body))
  }

  function RewriteBody(r: Rewriting, ss: seq<Stmt>): seq<Stmt> {
    if ss == [] then [] else [RewriteStmt(r, ss[0])] + RewriteBody(r, ss[1..])
  }

  function Repeat<T>(x: T, n: nat): (r: seq<T>)
    ensures |r| == n
  {
    seq(n, _ => x)
  }

  /** `ArgumentNormalizationTransform.process` with the given extra locals. */
  function Normalized(code: Code, extra: seq<LocalId>): Code
    requires code.parameters.vparam.Some?
  {
    var p := code.parameters;
    Code(p.(params := p.params + extra,
            names := p.names + Repeat<Option<string>>(None, |extra|),
            defaults := if |extra| > 0 then [] else p.defaults,
            vparam := None),
         RewriteBody(Spread(p.vparam.value, extra), code.body))
  }

  /** What normalising does to the parameters: the extra locals become the last
      positional ones, under names no keyword can match; `*args` is gone; defaults
      are dropped only when there are extra locals; all else stays. */
  lemma {:induction false} NormalizedParameters(code: Code, extra: seq<LocalId>)
    requires code.parameters.vparam.Some? && |code.parameters.names| == |code.parameters.params|
    ensures var p, q := code.parameters, Normalized(code, extra).parameters;
            && q.posonly == p.posonly && q.params == p.params + extra && q.vparam.None?
            && q.selfparam == p.selfparam && q.kparam == p.kparam
            && (extra == [] ==> q.defaults == p.defaults) && (extra != [] ==> q.defaults == [])
            && |q.names| == |q.params| && q.names[..|p.names|] == p.names
            && forall i :: |p.names| <= i < |q.names| ==> q.names[i].None?
  {
  }

  // -------------------------------------------------- conditions on bodies

  /** The variadic local occurs only as a direct `*args`, the extra ones nowhere. */
  ghost predicate Only(r: Rewriting, e: Expr) {
    r.Keep? ||
    match e
    case Local(id) => id != r.v && id !in r.extra
    case Existing(_) => true
    case Operation(_, operands) => OnlyAll(r, operands)
    case Call(callee, args, _) => Only(r, callee) && OnlyArgs(r, args)
    case MethodCall(receiver, methodName, args, _) =>
      && Only(r, receiver) && Only(r, methodName) && OnlyArgs(r, args)
      && (PassesVariadic(r, args) ==> Rewrite(r, methodName) == methodName)
    case DirectCall(_, selfarg, args, _) => OnlyOptional(r, selfarg) && OnlyArgs(r, args)
  }

  ghost predicate OnlyAll(r: Rewriting, es: seq<Expr>) {
    es != [] ==> Only(r, es[0]) && OnlyAll(r, es[1..])
  }

  ghost predicate OnlyKeywords(r: Rewriting, ks: seq<Keyword>) {
    ks != [] ==> Only(r, ks[0].value) && OnlyKeywords(r, ks[1..])
  }

  ghost predicate OnlyOptional(r: Rewriting, e: Option<Expr>) {
    match e
    case None => true
    case Some(x) => Only(r, x)
  }

  ghost predicate OnlyArgs(r: Rewriting, a: Args) {
    r.Keep? || (
      && OnlyAll(r, a.positional) && OnlyKeywords(r, a.keywords) && OnlyOptional(r, a.doubleStar)
      && (a.star == Some(Local(r.v)) || OnlyOptional(r, a.star)))
  }

  ghost predicate OnlyStmt(r: Rewriting, s: Stmt) {
    r.Keep? ||
    match s
    case Assign(value, target) => Only(r, value) && target != r.v && target !in r.extra
    case Discard(value) => Only(r, value)
    case Return(value) => Only(r, value)
    case Switch(condition, whenTrue, whenFalse) => Only(r, condition) && OnlyBody(r, whenTrue) && OnlyBody(r, whenFalse)
    case While(condition, body) => Only(r, condition) && OnlyBody(r, body)
  }

  ghost predicate OnlyBody(r: Rewriting, ss: seq<Stmt>) {
    r.Keep? || (ss != [] ==> OnlyStmt(r, ss[0]) && OnlyBody(r, ss[1..]))
  }

  /** A call site that may reach code c reaches nothing else and passes exactly
      `arity` positional arguments. */
  predicate SiteAccepted(c: CodeId, arity: nat, targets: set<CodeId>, a: Args) {
    c in targets ==> targets == {c} && a.star.None? && a.doubleStar.None? && a.keywords == [] && |a.positional| == arity
  }

  predicate Sites(c: CodeId, arity: nat, e: Expr) {
    match e
    case Local(_) => true
    case Existing(_) => true
    case Operation(_, operands) => SitesAll(c, arity, operands)
    case Call(callee, args, targets) =>
      SiteAccepted(c, arity, targets, args) && Sites(c, arity, callee) && SitesArgs(c, arity, args)
    case MethodCall(receiver, methodName, args, targets) =>
      && SiteAccepted(c, arity, targets, args)
      && Sites(c, arity, receiver) && Sites(c, arity, methodName) && SitesArgs(c, arity, args)
    case DirectCall(_, selfarg, args, targets) =>
      SiteAccepted(c, arity, targets, args) && SitesOptional(c, arity, selfarg) && SitesArgs(c, arity, args)
  }

  predicate SitesAll(c: CodeId, arity: nat, es: seq<Expr>) {
    es != [] ==> Sites(c, arity, es[0]) && SitesAll(c, arity, es[1..])
  }

  predicate SitesKeywords(c: CodeId, arity: nat, ks: seq<Keyword>) {
    ks != [] ==> Sites(c, arity, ks[0].value) && SitesKeywords(c, arity, ks[1..])
  }

  predicate SitesOptional(c: CodeId, arity: nat, e: Option<Expr>) {
    match e
    case None => true
    case Some(x) => Sites(c, arity, x)
  }

  predicate SitesArgs(c: CodeId, arity: nat, a: Args) {
    && SitesAll(c, arity, a.positional) && SitesKeywords(c, arity, a.keywords)
    && SitesOptional(c, arity, a.star) && SitesOptional(c, arity, a.doubleStar)
  }

  predicate SitesStmt(c: CodeId, arity: nat, s: Stmt) {
    match s
    case Assign(value, _) => Sites(c, arity, value)
    case Discard(value) => Sites(c, arity, value)
    case Return(value) => Sites(c, arity, value)
    case Switch(condition, whenTrue, whenFalse) =>
      Sites(c, arity, condition) && SitesBody(c, arity, whenTrue) && SitesBody(c, arity, whenFalse)
    case While(condition, body) => Sites(c, arity, condition) && SitesBody(c, arity, body)
  }

  predicate SitesBody(c: CodeId, arity: nat, ss: seq<Stmt>) {
    ss != [] ==> SitesStmt(c, arity, ss[0]) && SitesBody(c, arity, ss[1..])
  }

  // ------------------------------------------------------------- one rewrite

  /** Normalising code c of program p with the given extra locals. */
  datatype Normalization = Normalization(p: Program, c: CodeId, extra: seq<LocalId>) {
    function Params(): Parameters
      requires c in p
    {
      p[c].parameters
    }

    function Arity(): nat
      requires c in p
    {
      |Params().posonly| + |Params().params| + |extra|
    }

    /** What the guards establish. */
    ghost predicate Valid() {
      && c in p && Params().vparam.Some? && Params().selfparam.None?
      && |Params().names| == |Params().params|
      && (forall i, j :: 0 <= i < j < |extra| ==> extra[i] != extra[j])
      && OnlyBody(Spread(Params().vparam.value, extra), p[c].body)
      && (forall d :: d in p ==> SitesBody(c, Arity(), p[d].body))
    }

    function Result(): Program
      requires c in p && Params().vparam.Some?
    {
      p[c := Normalized(p[c], extra)]
    }
  }

  /** Environments of a body and its rewriting: the extra locals hold the items
      of the variadic tuple, all other locals agree. */
  ghost predicate SameEnv(r: Rewriting, env: Env, env': Env) {
    match r
    case Keep => env == env'
    case Spread(v, extra) =>
      && v in env && env[v].Tuple? && |env[v].items| == |extra|
      && (forall i :: 0 <= i < |extra| ==> extra[i] in env' && env'[extra[i]] == env[v].items[i])
      && (forall x :: x != v && x !in extra ==> (x in env <==> x in env') && (x in env ==> env[x] == env'[x]))
  }

  ghost predicate SameFlow(r: Rewriting, a: Outcome<Flow>, b: Outcome<Flow>) {
    if a.Done? && a.value.Running? then
      b.Done? && b.value.Running? && a.store == b.store && SameEnv(r, a.value.env, b.value.env)
    else a == b
  }

  // ------------------------------------------------ rewriting with Keep

  lemma {:induction false} KeepIsIdentity(e: Expr)
    ensures Rewrite(Keep, e) == e
  {
    match e
    case Local(_) =>
    case Existing(_) =>
    case Operation(_, operands) => KeepAll(operands);
    case Call(callee, args, _) => KeepIsIdentity(callee); KeepArgs(args);
    case MethodCall(receiver, methodName, args, _) =>
      KeepIsIdentity(receiver); KeepIsIdentity(methodName); KeepArgs(args);
    case DirectCall(_, selfarg, args, _) => KeepOptional(selfarg); KeepArgs(args);
  }

  lemma {:induction false} KeepAll(es: seq<Expr>)
    ensures RewriteAll(Keep, es) == es
  {
    if es != [] {
      KeepIsIdentity(es[0]);
      KeepAll(es[1..]);
    }
  }

  lemma {:induction false} KeepKeywords(ks: seq<Keyword>)
    ensures RewriteKeywords(Keep, ks) == ks
  {
    if ks != [] {
      KeepIsIdentity(ks[0].value);
      KeepKeywords(ks[1..]);
    }
  }

  lemma {:induction false} KeepOptional(e: Option<Expr>)
    ensures RewriteOptional(Keep, e) == e
  {
    match e
    case None =>
    case Some(x) => KeepIsIdentity(x);
  }

  lemma {:induction false} KeepArgs(a: Args)
    ensures RewriteArgs(Keep, a) == a
  {
    KeepAll(a.positional);
    KeepKeywords(a.keywords);
    KeepOptional(a.star);
    KeepOptional(a.doubleStar);
  }

  lemma {:induction false} KeepStmt(s: Stmt)
    ensures RewriteStmt(Keep, s) == s
  {
    match s
    case Assign(value, _) => KeepIsIdentity(value);
    case Discard(value) => KeepIsIdentity(value);
    case Return(value) => KeepIsIdentity(value);
    case Switch(condition, whenTrue, whenFalse) => KeepIsIdentity(condition); KeepBody(whenTrue); KeepBody(whenFalse);
    case While(condition, body) => KeepIsIdentity(condition); KeepBody(body);
  }

  lemma {:induction false} KeepBody(ss: seq<Stmt>)
    ensures RewriteBody(Keep, ss) == ss
  {
    if ss != [] {
      KeepStmt(ss[0]);
      KeepBody(ss[1..]);
    }
  }

  // ------------------------------------------------------- argument binding

  lemma {:induction false} AllFilled(slots: seq<Option<Value>>, values: seq<Value>, defaults: seq<Value>)
    requires |slots| == |values| && forall i :: 0 <= i < |slots| ==> slots[i] == Some(values[i])
    ensures FillDefaults(slots, defaults) == Some(values)
  {
    if slots != [] {
      var shorter := if defaults == [] then [] else defaults[..|defaults| - 1];
      AllFilled(slots[..|slots| - 1], values[..|values| - 1], shorter);
      assert values == values[..|values| - 1] + [values[|values| - 1]];
    }
  }

  function SlotCount(p: Parameters): nat { |p.posonly| + |p.params| }

  /** A call with all positional arguments and no keywords binds them in order. */
  lemma {:induction false} BindExact(p: Parameters, self: Option<Value>, a: Actuals)
    requires |p.names| == |p.params| && a.keywords == []
    requires |a.positional| >= SlotCount(p) && (p.vparam.None? ==> |a.positional| == SlotCount(p))
    ensures Bind(p, self, a)
         == Some(OptionalBinding(p.selfparam, self.GetOr(NoneValue)) + OptionalBinding(p.kparam, Dict([]))
                 + Zip(p.posonly + p.params, a.positional[..SlotCount(p)])
                 + OptionalBinding(p.vparam, Tuple(a.positional[SlotCount(p)..])))
  {
    var slots := PositionalSlots(SlotCount(p), a.positional);
    assert BindKeywords(p, slots, []) == Some((slots, []));
    AllFilled(slots, a.positional[..SlotCount(p)], p.defaults);
  }

  lemma {:induction false} ZipAppend(xs: seq<LocalId>, vs: seq<Value>, ys: seq<LocalId>, ws: seq<Value>)
    requires |xs| == |vs| && |ys| == |ws|
    ensures Zip(xs + ys, vs + ws) == Zip(xs, vs) + Zip(ys, ws)
  {
    if ys == [] {
      assert xs + ys == xs && vs + ws == vs;
    } else {
      ZipAppend(xs, vs, ys[..|ys| - 1], ws[..|ws| - 1]);
      assert (xs + ys)[..|xs + ys| - 1] == xs + ys[..|ys| - 1];
      assert (vs + ws)[..|vs + ws| - 1] == vs + ws[..|ws| - 1];
    }
  }

  lemma {:induction false} ZipLookup(xs: seq<LocalId>, vs: seq<Value>)
    requires |xs| == |vs| && forall i, j :: 0 <= i < j < |xs| ==> xs[i] != xs[j]
    ensures forall x :: x in Zip(xs, vs) <==> x in xs
    ensures forall i :: 0 <= i < |xs| ==> Zip(xs, vs)[xs[i]] == vs[i]
  {
    if xs != [] {
      ZipLookup(xs[..|xs| - 1], vs[..|vs| - 1]);
      assert xs == xs[..|xs| - 1] + [xs[|xs| - 1]];
    }
  }

  lemma {:induction false} SpreadEnv(base: Env, v: LocalId, extra: seq<LocalId>, items: seq<Value>)
    requires |extra| == |items| && forall i, j :: 0 <= i < j < |extra| ==> extra[i] != extra[j]
    ensures SameEnv(Spread(v, extra), base + map[v := Tuple(items)], base + Zip(extra, items))
  {
    ZipLookup(extra, items);
  }

  /** The environment before the variadic local or its replacements. */
  function BaseEnv(p: Parameters, self: Option<Value>, first: seq<Value>): Env
    requires |first| == SlotCount(p)
  {
    OptionalBinding(p.selfparam, self.GetOr(NoneValue)) + OptionalBinding(p.kparam, Dict([]))
    + Zip(p.posonly + p.params, first)
  }

  lemma {:induction false} BindSpread(
    p: Parameters, q: Parameters, extra: seq<LocalId>, self: Option<Value>, a: Actuals)
    requires q.selfparam == p.selfparam && q.kparam == p.kparam && q.posonly == p.posonly
    requires q.params == p.params + extra && |q.names| == |q.params| && q.vparam.None?
    requires a.keywords == [] && |a.positional| == SlotCount(p) + |extra|
    ensures Bind(q, self, a)
         == Some(BaseEnv(p, self, a.positional[..SlotCount(p)]) + Zip(extra, a.positional[SlotCount(p)..]))
  {
    var first, rest := a.positional[..SlotCount(p)], a.positional[SlotCount(p)..];
    BindExact(q, self, a);
    assert a.positional[..SlotCount(q)] == first + rest;
    assert q.posonly + q.params == (p.posonly + p.params) + extra;
    ZipAppend(p.posonly + p.params, first, extra, rest);
    Regroup(OptionalBinding(p.selfparam, self.GetOr(NoneValue)) + OptionalBinding(p.kparam, Dict([])),
            Zip(p.posonly + p.params, first), Zip(extra, rest));
  }

  lemma {:induction false} Regroup(a: Env, b: Env, c: Env)
    ensures a + (b + c) + map[] == (a + b) + c
  {
  }

  /** Called with exactly the accepted arguments, the code and its normalisation
      start in corresponding environments. */
  lemma {:induction false} BindNormalized(w: Normalization, self: Option<Value>, a: Actuals)
    requires w.Valid() && a.keywords == [] && |a.positional| == w.Arity()
    ensures var p, q := w.Params(), Normalized(w.p[w.c], w.extra).parameters;
            && Bind(p, self, a).Some? && Bind(q, self, a).Some?
            && SameEnv(Spread(p.vparam.value, w.extra), Bind(p, self, a).value, Bind(q, self, a).value)
  {
    var p, q := w.Params(), Normalized(w.p[w.c], w.extra).parameters;
    BindExact(p, self, a);
    BindSpread(p, q, w.extra, self, a);
    SpreadEnv(BaseEnv(p, self, a.positional[..SlotCount(p)]), p.vparam.value, w.extra, a.positional[SlotCount(p)..]);
  }

  // --------------------------------------------------- evaluation corresponds

  lemma {:induction false} EvalAllLength(m: Machine, p: Program, fuel: nat, env: Env, h: Store, es: seq<Expr>)
    ensures var r := EvalAll(m, p, fuel, env, h, es); r.Done? ==> |r.value| == |es|
    decreases |es|
  {
    if es != [] {
      var v := Eval(m, p, fuel, env, h, es[0]);
      if v.Done? {
        EvalAllLength(m, p, fuel, env, v.store, es[1..]);
      }
    }
  }

  lemma {:induction false} EvalAllAppend(
    m: Machine, p: Program, fuel: nat, env: Env, h: Store, es: seq<Expr>, ls: seq<LocalId>, vs: seq<Value>)
    requires |ls| == |vs| && forall i :: 0 <= i < |ls| ==> ls[i] in env && env[ls[i]] == vs[i]
    ensures var r := EvalAll(m, p, fuel, env, h, es);
            EvalAll(m, p, fuel, env, h, es + Locals(ls)) == if r.Done? then Done(r.value + vs, r.store) else r
    decreases |es|
  {
    if es != [] {
      assert (es + Locals(ls))[1..] == es[1..] + Locals(ls);
      var v := Eval(m, p, fuel, env, h, es[0]);
      if v.Done? {
        EvalAllAppend(m, p, fuel, env, v.store, es[1..], ls, vs);
        var rest := EvalAll(m, p, fuel, env, v.store, es[1..]);
        assert rest.Done? ==> [v.value] + (rest.value + vs) == ([v.value] + rest.value) + vs;
      }
    } else {
      assert es + Locals(ls) == Locals(ls);
      EvalLocals(m, p, fuel, env, h, ls, vs);
      assert [] + vs == vs;
    }
  }

  lemma {:induction false} EvalLocals(
    m: Machine, p: Program, fuel: nat, env: Env, h: Store, ls: seq<LocalId>, vs: seq<Value>)
    requires |ls| == |vs| && forall i :: 0 <= i < |ls| ==> ls[i] in env && env[ls[i]] == vs[i]
    ensures EvalAll(m, p, fuel, env, h, Locals(ls)) == Done(vs, h)
  {
    if ls != [] {
      EvalLocals(m, p, fuel, env, h, ls[1..], vs[1..]);
      assert Locals(ls)[1..] == Locals(ls[1..]);
      assert [vs[0]] + vs[1..] == vs;
    }
  }

  lemma {:induction false} SameEval(
    m: Machine, w: Normalization, fuel: nat, r: Rewriting, env: Env, env': Env, h: Store, e: Expr)
    requires w.Valid() && SameEnv(r, env, env') && Only(r, e) && Sites(w.c, w.Arity(), e)
    ensures Eval(m, w.p, fuel, env, h, e) == Eval(m, w.Result(), fuel, env', h, Rewrite(r, e))
    decreases fuel, 1, e
  {
    match e
    case Local(_) =>
    case Existing(_) =>
    case Operation(_, operands) => SameAll(m, w, fuel, r, env, env', h, operands);
    case Call(callee, args, targets) =>
      SameEval(m, w, fuel, r, env, env', h, callee);
      var f := Eval(m, w.p, fuel, env, h, callee);
      if f.Done? {
        SameArgs(m, w, fuel, r, env, env', f.store, args);
        var a := EvalArgs(m, w.p, fuel, env, f.store, args);
        if a.Done? && f.value.Function? {
          SameApply(m, w, fuel, env, f.store, args, f.value.code, Some(f.value), a.value, targets, a.store);
        }
      }
    case MethodCall(receiver, methodName, args, targets) =>
      SameEval(m, w, fuel, r, env, env', h, receiver);
      var f := Eval(m, w.p, fuel, env, h, receiver);
      if f.Done? {
        SameEval(m, w, fuel, r, env, env', f.store, methodName);
        var name := Eval(m, w.p, fuel, env, f.store, methodName);
        if name.Done? {
          SameArgs(m, w, fuel, r, env, env', name.store, args);
          var a := EvalArgs(m, w.p, fuel, env, name.store, args);
          var found := m.lookup(f.value, name.value);
          if a.Done? && found.Some? {
            SameApply(m, w, fuel, env, name.store, args, found.value, Some(f.value), a.value, targets, a.store);
          }
        }
      }
    case DirectCall(code, selfarg, args, targets) =>
      SameOptional(m, w, fuel, r, env, env', h, selfarg);
      var self := EvalOptional(m, w.p, fuel, env, h, selfarg);
      if self.Done? {
        SameArgs(m, w, fuel, r, env, env', self.store, args);
        var a := EvalArgs(m, w.p, fuel, env, self.store, args);
        if a.Done? {
          SameApply(m, w, fuel, env, self.store, args, code, self.value, a.value, targets, a.store);
        }
      }
  }

  lemma {:induction false} SameAll(
    m: Machine, w: Normalization, fuel: nat, r: Rewriting, env: Env, env': Env, h: Store, es: seq<Expr>)
    requires w.Valid() && SameEnv(r, env, env') && (r.Keep? || OnlyAll(r, es)) && SitesAll(w.c, w.Arity(), es)
    ensures EvalAll(m, w.p, fuel, env, h, es) == EvalAll(m, w.Result(), fuel, env', h, RewriteAll(r, es))
    decreases fuel, 1, es
  {
    if es != [] {
      SameEval(m, w, fuel, r, env, env', h, es[0]);
      var v := Eval(m, w.p, fuel, env, h, es[0]);
      if v.Done? {
        SameAll(m, w, fuel, r, env, env', v.store, es[1..]);
      }
      assert RewriteAll(r, es)[1..] == RewriteAll(r, es[1..]);
    }
  }

  lemma {:induction false} SameKeywords(
    m: Machine, w: Normalization, fuel: nat, r: Rewriting, env: Env, env': Env, h: Store, ks: seq<Keyword>)
    requires w.Valid() && SameEnv(r, env, env') && (r.Keep? || OnlyKeywords(r, ks)) && SitesKeywords(w.c, w.Arity(), ks)
    ensures EvalKeywords(m, w.p, fuel, env, h, ks) == EvalKeywords(m, w.Result(), fuel, env', h, RewriteKeywords(r, ks))
    decreases fuel, 1, ks
  {
    if ks != [] {
      SameEval(m, w, fuel, r, env, env', h, ks[0].value);
      var v := Eval(m, w.p, fuel, env, h, ks[0].value);
      if v.Done? {
        SameKeywords(m, w, fuel, r, env, env', v.store, ks[1..]);
      }
      assert RewriteKeywords(r, ks)[1..] == RewriteKeywords(r, ks[1..]);
    }
  }

  lemma {:induction false} SameOptional(
    m: Machine, w: Normalization, fuel: nat, r: Rewriting, env: Env, env': Env, h: Store, e: Option<Expr>)
    requires w.Valid() && SameEnv(r, env, env') && (r.Keep? || OnlyOptional(r, e)) && SitesOptional(w.c, w.Arity(), e)
    ensures EvalOptional(m, w.p, fuel, env, h, e) == EvalOptional(m, w.Result(), fuel, env', h, RewriteOptional(r, e))
    decreases fuel, 1, e
  {
    match e
    case None =>
    case Some(x) => SameEval(m, w, fuel, r, env, env', h, x);
  }

  lemma {:induction false} SameArgs(
    m: Machine, w: Normalization, fuel: nat, r: Rewriting, env: Env, env': Env, h: Store, a: Args)
    requires w.Valid() && SameEnv(r, env, env') && OnlyArgs(r, a) && SitesArgs(w.c, w.Arity(), a)
    ensures EvalArgs(m, w.p, fuel, env, h, a) == EvalArgs(m, w.Result(), fuel, env', h, RewriteArgs(r, a))
    decreases fuel, 1, a, 1
  {
    if r.Spread? && a.star == Some(Local(r.v)) {
      SameSpreadParts(m, w, fuel, r, env, env', h, a);
      SpreadArgs(m, w.p, w.Result(), fuel, r, env, env', h, a);
    } else {
      SamePlainArgs(m, w, fuel, r, env, env', h, a);
    }
  }

  lemma {:induction false} SameSpreadParts(
    m: Machine, w: Normalization, fuel: nat, r: Rewriting, env: Env, env': Env, h: Store, a: Args)
    requires w.Valid() && SameEnv(r, env, env') && OnlyArgs(r, a) && SitesArgs(w.c, w.Arity(), a)
    ensures PartsAgree(m, w.p, w.Result(), fuel, r, env, env', h, a)
    decreases fuel, 1, a, 0
  {
    SameAll(m, w, fuel, r, env, env', h, a.positional);
    var positional := EvalAll(m, w.p, fuel, env, h, a.positional);
    if positional.Done? {
      SameKeywords(m, w, fuel, r, env, env', positional.store, a.keywords);
      var keywords := EvalKeywords(m, w.p, fuel, env, positional.store, a.keywords);
      if keywords.Done? {
        SameOptional(m, w, fuel, r, env, env', keywords.store, a.doubleStar);
      }
    }
  }

  lemma {:induction false} SamePlainArgs(
    m: Machine, w: Normalization, fuel: nat, r: Rewriting, env: Env, env': Env, h: Store, a: Args)
    requires w.Valid() && SameEnv(r, env, env') && OnlyArgs(r, a) && SitesArgs(w.c, w.Arity(), a)
    requires !(r.Spread? && a.star == Some(Local(r.v)))
    ensures EvalArgs(m, w.p, fuel, env, h, a) == EvalArgs(m, w.Result(), fuel, env', h, RewriteArgs(r, a))
    decreases fuel, 1, a, 0
  {
    SameAll(m, w, fuel, r, env, env', h, a.positional);
    var positional := EvalAll(m, w.p, fuel, env, h, a.positional);
    if positional.Done? {
      SameKeywords(m, w, fuel, r, env, env', positional.store, a.keywords);
      var keywords := EvalKeywords(m, w.p, fuel, env, positional.store, a.keywords);
      if keywords.Done? {
        SameOptional(m, w, fuel, r, env, env', keywords.store, a.star);
        var star := EvalOptional(m, w.p, fuel, env, keywords.store, a.star);
        if star.Done? {
          SameOptional(m, w, fuel, r, env, env', star.store, a.doubleStar);
        }
      }
    }
    PartsMakeArgs(m, w.p, w.Result(), fuel, env, env', h, a, RewriteArgs(r, a));
  }

  /** All four parts of two argument lists evaluate alike. */
  ghost predicate AllPartsAgree(
    m: Machine, p: Program, q: Program, fuel: nat, env: Env, env': Env, h: Store, a: Args, b: Args)
  {
    var positional := EvalAll(m, p, fuel, env, h, a.positional);
    && EvalAll(m, q, fuel, env', h, b.positional) == positional
    && (positional.Done? ==>
          var keywords := EvalKeywords(m, p, fuel, env, positional.store, a.keywords);
          && EvalKeywords(m, q, fuel, env', positional.store, b.keywords) == keywords
          && (keywords.Done? ==>
                var star := EvalOptional(m, p, fuel, env, keywords.store, a.star);
                && EvalOptional(m, q, fuel, env', keywords.store, b.star) == star
                && (star.Done? ==>
                      EvalOptional(m, q, fuel, env', star.store, b.doubleStar)
                      == EvalOptional(m, p, fuel, env, star.store, a.doubleStar))))
  }

  lemma {:induction false} PartsMakeArgs(
    m: Machine, p: Program, q: Program, fuel: nat, env: Env, env': Env, h: Store, a: Args, b: Args)
    requires AllPartsAgree(m, p, q, fuel, env, env', h, a, b)
    ensures EvalArgs(m, p, fuel, env, h, a) == EvalArgs(m, q, fuel, env', h, b)
  {
  }

  /** The positional, keyword and double-star arguments evaluate alike. */
  ghost predicate PartsAgree(
    m: Machine, p: Program, q: Program, fuel: nat, r: Rewriting, env: Env, env': Env, h: Store, a: Args)
  {
    var positional := EvalAll(m, p, fuel, env, h, a.positional);
    && EvalAll(m, q, fuel, env', h, RewriteAll(r, a.positional)) == positional
    && (positional.Done? ==>
          var keywords := EvalKeywords(m, p, fuel, env, positional.store, a.keywords);
          && EvalKeywords(m, q, fuel, env', positional.store, RewriteKeywords(r, a.keywords)) == keywords
          && (keywords.Done? ==>
                EvalOptional(m, q, fuel, env', keywords.store, RewriteOptional(r, a.doubleStar))
                == EvalOptional(m, p, fuel, env, keywords.store, a.doubleStar)))
  }

  /** The rewritten positional arguments are followed by the tuple's items. */
  ghost predicate PositionalSpread(
    m: Machine, p: Program, q: Program, fuel: nat, r: Rewriting, env: Env, env': Env, h: Store, a: Args)
    requires SameEnv(r, env, env') && PassesVariadic(r, a)
  {
    var positional := EvalAll(m, p, fuel, env, h, a.positional);
    EvalAll(m, q, fuel, env', h, RewriteArgs(r, a).positional)
    == if positional.Done? then Done(positional.value + env[r.v].items, positional.store) else positional
  }

  /** Passing the extra locals passes the items of the variadic tuple. */
  lemma {:induction false} SpreadArgs(
    m: Machine, p: Program, q: Program, fuel: nat, r: Rewriting, env: Env, env': Env, h: Store, a: Args)
    requires SameEnv(r, env, env') && PassesVariadic(r, a)
    requires PartsAgree(m, p, q, fuel, r, env, env', h, a)
    ensures EvalArgs(m, p, fuel, env, h, a) == EvalArgs(m, q, fuel, env', h, RewriteArgs(r, a))
  {
    EvalAllAppend(m, q, fuel, env', h, RewriteAll(r, a.positional), r.extra, env[r.v].items);
    SpreadRest(m, p, q, fuel, r, env, env', h, a);
  }

  lemma {:induction false} SpreadRest(
    m: Machine, p: Program, q: Program, fuel: nat, r: Rewriting, env: Env, env': Env, h: Store, a: Args)
    requires SameEnv(r, env, env') && PassesVariadic(r, a)
    requires PartsAgree(m, p, q, fuel, r, env, env', h, a) && PositionalSpread(m, p, q, fuel, r, env, env', h, a)
    ensures EvalArgs(m, p, fuel, env, h, a) == EvalArgs(m, q, fuel, env', h, RewriteArgs(r, a))
  {
    var items, b := env[r.v].items, RewriteArgs(r, a);
    var positional := EvalAll(m, p, fuel, env, h, a.positional);
    if positional.Done? {
      var keywords := EvalKeywords(m, p, fuel, env, positional.store, a.keywords);
      if keywords.Done? {
        StarDone(m, p, fuel, env, h, a, positional.value, positional.store, keywords.value, keywords.store,
                 Some(env[r.v]), keywords.store);
        StarDone(m, q, fuel, env', h, b, positional.value + items, positional.store, keywords.value, keywords.store,
                 None, keywords.store);
        assert (positional.value + items) + [] == positional.value + items;
      }
    }
  }

  /** What the double-star argument adds to the others. */
  function Gather(positional: seq<Value>, keywords: seq<Entry>, doubleStar: Outcome<Option<Value>>): Outcome<Actuals> {
    var (d, h) :- doubleStar;
    if d.Some? && !d.value.Dict? then Raised("argument after ** must be a mapping", h)
    else Done(Actuals(positional, keywords + (if d.Some? then d.value.entries else [])), h)
  }

  lemma {:induction false} StarDone(
    m: Machine, p: Program, fuel: nat, env: Env, h: Store, a: Args,
    vs: seq<Value>, h1: Store, ks: seq<Entry>, h2: Store, star: Option<Value>, h3: Store)
    requires EvalAll(m, p, fuel, env, h, a.positional) == Done(vs, h1)
    requires EvalKeywords(m, p, fuel, env, h1, a.keywords) == Done(ks, h2)
    requires EvalOptional(m, p, fuel, env, h2, a.star) == Done(star, h3)
    requires star.Some? ==> star.value.Tuple?
    ensures EvalArgs(m, p, fuel, env, h, a)
         == Gather(vs + (if star.Some? then star.value.items else []), ks,
                   EvalOptional(m, p, fuel, env, h3, a.doubleStar))
  {
  }

  /** A call that reaches the normalised code comes from an accepted site. */
  lemma {:induction false} SameApply(
    m: Machine, w: Normalization, fuel: nat, env: Env, h: Store, args: Args,
    code: CodeId, self: Option<Value>, a: Actuals, targets: set<CodeId>, h': Store)
    requires w.Valid() && SiteAccepted(w.c, w.Arity(), targets, args)
    requires EvalArgs(m, w.p, fuel, env, h, args) == Done(a, h')
    ensures Apply(m, w.p, fuel, code, self, a, targets, h') == Apply(m, w.Result(), fuel, code, self, a, targets, h')
    decreases fuel, 0
  {
    if code in targets && fuel > 0 {
      if code == w.c {
        EvalAllLength(m, w.p, fuel, env, h, args.positional);
        assert a.keywords == [] && |a.positional| == w.Arity();
      }
      SameInvoke(m, w, fuel - 1, code, self, a, h');
    }
  }

  lemma {:induction false} SameInvoke(
    m: Machine, w: Normalization, fuel: nat, code: CodeId, self: Option<Value>, a: Actuals, h: Store)
    requires w.Valid()
    requires code == w.c ==> a.keywords == [] && |a.positional| == w.Arity()
    ensures Invoke(m, w.p, fuel, code, self, a, h) == Invoke(m, w.Result(), fuel, code, self, a, h)
    decreases fuel, 3
  {
    if code == w.c {
      SameInvokeNormalized(m, w, fuel, self, a, h);
    } else if code in w.p {
      SameInvokeOther(m, w, fuel, code, self, a, h);
    }
  }

  lemma {:induction false} SameInvokeNormalized(
    m: Machine, w: Normalization, fuel: nat, self: Option<Value>, a: Actuals, h: Store)
    requires w.Valid() && a.keywords == [] && |a.positional| == w.Arity()
    ensures Invoke(m, w.p, fuel, w.c, self, a, h) == Invoke(m, w.Result(), fuel, w.c, self, a, h)
    decreases fuel, 2
  {
    BindNormalized(w, self, a);
    var q := Normalized(w.p[w.c], w.extra).parameters;
    SameExec(m, w, fuel, Spread(w.Params().vparam.value, w.extra),
             Bind(w.Params(), self, a).value, Bind(q, self, a).value, h, w.p[w.c].body);
  }

  lemma {:induction false} SameInvokeOther(
    m: Machine, w: Normalization, fuel: nat, code: CodeId, self: Option<Value>, a: Actuals, h: Store)
    requires w.Valid() && code != w.c && code in w.p
    ensures Invoke(m, w.p, fuel, code, self, a, h) == Invoke(m, w.Result(), fuel, code, self, a, h)
    decreases fuel, 2
  {
    var bound := Bind(w.p[code].parameters, self, a);
    if bound.Some? {
      KeepBody(w.p[code].body);
      SameExec(m, w, fuel, Keep, bound.value, bound.value, h, w.p[code].body);
    }
  }

  lemma {:induction false} SameExecOne(
    m: Machine, w: Normalization, fuel: nat, r: Rewriting, env: Env, env': Env, h: Store, s: Stmt)
    requires w.Valid() && SameEnv(r, env, env') && OnlyStmt(r, s) && SitesStmt(w.c, w.Arity(), s)
    ensures SameFlow(r, ExecOne(m, w.p, fuel, env, h, s), ExecOne(m, w.Result(), fuel, env', h, RewriteStmt(r, s)))
    decreases fuel, 1, s
  {
    match s
    case Assign(value, _) => SameEval(m, w, fuel, r, env, env', h, value);
    case Discard(value) => SameEval(m, w, fuel, r, env, env', h, value);
    case Return(value) => SameEval(m, w, fuel, r, env, env', h, value);
    case Switch(_, _, _) => SameSwitch(m, w, fuel, r, env, env', h, s);
    case While(_, _) => SameLoop(m, w, fuel, r, env, env', h, s);
  }

  lemma {:induction false} SameSwitch(
    m: Machine, w: Normalization, fuel: nat, r: Rewriting, env: Env, env': Env, h: Store, s: Stmt)
    requires w.Valid() && SameEnv(r, env, env') && OnlyStmt(r, s) && SitesStmt(w.c, w.Arity(), s) && s.Switch?
    ensures SameFlow(r, ExecOne(m, w.p, fuel, env, h, s), ExecOne(m, w.Result(), fuel, env', h, RewriteStmt(r, s)))
    decreases fuel, 1, s, 0
  {
    SameEval(m, w, fuel, r, env, env', h, s.condition);
    var v := Eval(m, w.p, fuel, env, h, s.condition);
    if v.Done? {
      if Truthy(v.value) {
        SameExec(m, w, fuel, r, env, env', v.store, s.whenTrue);
      } else {
        SameExec(m, w, fuel, r, env, env', v.store, s.whenFalse);
      }
    }
  }

  lemma {:induction false} SameLoop(
    m: Machine, w: Normalization, fuel: nat, r: Rewriting, env: Env, env': Env, h: Store, s: Stmt)
    requires w.Valid() && SameEnv(r, env, env') && OnlyStmt(r, s) && SitesStmt(w.c, w.Arity(), s) && s.While?
    ensures SameFlow(r, ExecOne(m, w.p, fuel, env, h, s), ExecOne(m, w.Result(), fuel, env', h, RewriteStmt(r, s)))
    decreases fuel, 1, s, 0
  {
    SameEval(m, w, fuel, r, env, env', h, s.condition);
    var v := Eval(m, w.p, fuel, env, h, s.condition);
    if v.Done? && Truthy(v.value) {
      SameExec(m, w, fuel, r, env, env', v.store, s.body);
      var flow := Exec(m, w.p, fuel, env, v.store, s.body);
      var flow' := Exec(m, w.Result(), fuel, env', v.store, RewriteBody(r, s.body));
      if flow.Done? && flow.value.Running? && fuel > 0 {
        SameLoop(m, w, fuel - 1, r, flow.value.env, flow'.value.env, flow.store, s);
      }
    }
  }

  lemma {:induction false} SameExec(
    m: Machine, w: Normalization, fuel: nat, r: Rewriting, env: Env, env': Env, h: Store, ss: seq<Stmt>)
    requires w.Valid() && SameEnv(r, env, env') && OnlyBody(r, ss) && SitesBody(w.c, w.Arity(), ss)
    ensures SameFlow(r, Exec(m, w.p, fuel, env, h, ss), Exec(m, w.Result(), fuel, env', h, RewriteBody(r, ss)))
    decreases fuel, 1, ss
  {
    if ss != [] {
      SameExecOne(m, w, fuel, r, env, env', h, ss[0]);
      assert RewriteBody(r, ss)[1..] == RewriteBody(r, ss[1..]);
      var flow := ExecOne(m, w.p, fuel, env, h, ss[0]);
      var flow' := ExecOne(m, w.Result(), fuel, env', h, RewriteStmt(r, ss[0]));
      if flow.Done? && flow.value.Running? {
        SameExec(m, w, fuel, r, flow.value.env, flow'.value.env, flow.store, ss[1..]);
      }
    }
  }

  /** Normalising `*args` preserves the result, the store and every failure of
      every call of the program, except direct outside calls of the code itself. */
  lemma {:induction false} NormalizationPreservesCalls(
    m: Machine, w: Normalization, fuel: nat, entry: CodeId, self: Option<Value>, a: Actuals, h: Store)
    requires w.Valid() && entry != w.c
    ensures Invoke(m, w.p, fuel, entry, self, a, h) == Invoke(m, w.Result(), fuel, entry, self, a, h)
  {
    SameInvoke(m, w, fuel, entry, self, a, h);
  }
}
