/** A program that the normalisation guards accept although the variadic local
    occurs inside an operand the analysis skips:

      def callee(*args): return None
      def normalised(*args): return callee(*copy(args))
      def entry(): return normalised(1)

    (src/pyflow/optimization/argumentnormalization.py:90-108). */
module HiddenVariadicUse {
  import opened Wrappers
  import opened CallIR
  import opened ArgumentNormalization
  import opened ArgumentNormalizationPass

  const NO_ARGS := Args([], [], None, None)

  /** Operations return their first operand. */
  function FirstOperand(name: string, operands: seq<Value>, h: Store): Outcome<Value> {
    if operands == [] then Raised(name, h) else Done(operands[0], h)
  }

  const MACHINE := Machine(FirstOperand, (receiver, name) => None)

  const HIDDEN: Expr := Operation("copy", [Local(0)])
  const INNER: Expr := DirectCall(2, None, Args([], [], Some(HIDDEN), None), {2})
  const OUTER: Expr := DirectCall(1, None, Args([Existing(Int(1))], [], None, None), {1})

  const PROGRAM: Program := map[
    0 := Code(Parameters(None, [], [], [], [], None, None), [Return(OUTER)]),
    1 := Code(Parameters(None, [], [], [], [], Some(0), None), [Return(INNER)]),
    2 := Code(Parameters(None, [], [], [], [], Some(1), None), [])]

  const FACTS := Facts(true, false, Some([Some(1)]))

  /** The guards choose code 1, with one extra parameter. */
  lemma {:induction false} GuardsAccept()
    ensures Chosen(PROGRAM, {0}, map[1 := FACTS], 1) == Some(1)
    ensures !HiddenClearBody(0, PROGRAM[1].body)
  {
    assert ApplicableAll(0, []) && ApplicableKeywords(0, []);
    assert Applicable(0, INNER);
    assert ApplicableBody(0, PROGRAM[1].body) by {
      assert ApplicableBody(0, PROGRAM[1].body[1..]);
    }
    assert ApplicableLength(PROGRAM[1], FACTS) == Some(1);
    assert SitesAll(1, 1, []) && SitesKeywords(1, 1, []);
    assert SitesAll(1, 1, [Existing(Int(1))][1..]);
    assert Sites(1, 1, OUTER);
    assert SitesAll(1, 1, [Local(0)][1..]);
    assert Sites(1, 1, HIDDEN);
    assert Sites(1, 1, INNER);
    assert SitesBody(1, 1, PROGRAM[0].body[1..]) && SitesBody(1, 1, PROGRAM[1].body[1..]);
    assert Unblocked(PROGRAM, {0}, 1, 1);
    assert Uses(HIDDEN) == {0} + UsesAll([Local(0)][1..]);
  }

  /** Code 1 returns when called with one argument. */
  lemma {:induction false} InnerReturns(env: Env, h: Store)
    requires 0 in env && env[0] == Tuple([Int(1)])
    ensures Eval(MACHINE, PROGRAM, 1, env, h, INNER) == Done(NoneValue, h)
  {
    assert EvalAll(MACHINE, PROGRAM, 1, env, h, [Local(0)]) == Done([env[0]], h) by {
      assert EvalAll(MACHINE, PROGRAM, 1, env, h, [Local(0)][1..]) == Done([], h);
      assert [env[0]] + [] == [env[0]];
    }
    assert Eval(MACHINE, PROGRAM, 1, env, h, HIDDEN) == Done(env[0], h);
    var a := Actuals([Int(1)], []);
    assert EvalOptional(MACHINE, PROGRAM, 1, env, h, Some(HIDDEN)) == Done(Some(env[0]), h);
    StarDone(MACHINE, PROGRAM, 1, env, h, INNER.args, [], h, [], h, Some(env[0]), h);
    assert [] + env[0].items == [Int(1)];
    BindExact(PROGRAM[2].parameters, None, a);
  }

  /** Entered normally, the program returns None; after normalising code 1, the
      skipped operand reads a local that is no longer bound. */
  lemma {:induction false} NormalizationChangesTheOutcome(h: Store)
    ensures var q := PROGRAM[1 := Normalized(PROGRAM[1], [7])];
            && Invoke(MACHINE, PROGRAM, 2, 0, None, Actuals([], []), h) == Done(NoneValue, h)
            && Invoke(MACHINE, q, 2, 0, None, Actuals([], []), h) == Raised("unbound local", h)
  {
    var q := PROGRAM[1 := Normalized(PROGRAM[1], [7])];
    var one := Actuals([Int(1)], []);
    EntryCalls(PROGRAM, h);
    EntryCalls(q, h);
    BindExact(PROGRAM[1].parameters, None, one);
    var env := Bind(PROGRAM[1].parameters, None, one).value;
    assert one.positional[0..] == [Int(1)];
    InnerReturns(env, h);
    BodyReturns(env, h);
    BindExact(q[1].parameters, None, one);
    var env' := Bind(q[1].parameters, None, one).value;
    assert env'.Keys == {7};
    UnboundLocal(q, env', h);
  }

  lemma {:induction false} BodyReturns(env: Env, h: Store)
    requires Eval(MACHINE, PROGRAM, 1, env, h, INNER) == Done(NoneValue, h)
    ensures Exec(MACHINE, PROGRAM, 1, env, h, PROGRAM[1].body) == Done(Returned(NoneValue), h)
  {
    assert PROGRAM[1].body == [Return(INNER)];
  }

  /** The entry point passes one positional argument to code 1. */
  lemma {:induction false} EntryCalls(p: Program, h: Store)
    requires 0 in p && p[0] == PROGRAM[0]
    ensures var called := Invoke(MACHINE, p, 1, 1, None, Actuals([Int(1)], []), h);
            Invoke(MACHINE, p, 2, 0, None, Actuals([], []), h)
            == if called.Done? then Done(called.value, called.store) else called
  {
    BindExact(p[0].parameters, None, Actuals([], []));
    var env := Bind(p[0].parameters, None, Actuals([], [])).value;
    assert EvalAll(MACHINE, p, 2, env, h, [Existing(Int(1))]) == Done([Int(1)], h) by {
      assert EvalAll(MACHINE, p, 2, env, h, [Existing(Int(1))][1..]) == Done([], h);
      assert [Int(1)] + [] == [Int(1)];
    }
    assert EvalArgs(MACHINE, p, 2, env, h, OUTER.args) == Done(Actuals([Int(1)], []), h);
    assert Exec(MACHINE, p, 2, env, h, [Return(OUTER)])
        == var v :- Eval(MACHINE, p, 2, env, h, OUTER); Done(Returned(v.0), v.1);
  }

  lemma {:induction false} UnboundLocal(q: Program, env: Env, h: Store)
    requires 0 !in env && 1 in q && q[1].body == RewriteBody(Spread(0, [7]), PROGRAM[1].body)
    ensures Exec(MACHINE, q, 1, env, h, q[1].body) == Raised("unbound local", h)
  {
    var r := Spread(0, [7]);
    assert RewriteOptional(r, Some(HIDDEN)) == Some(HIDDEN) by {
      assert RewriteAll(r, [Local(0)]) == [Local(0)];
    }
    assert Rewrite(r, INNER) == INNER;
    assert RewriteBody(r, PROGRAM[1].body) == [Return(INNER)];
    assert Eval(MACHINE, q, 1, env, h, HIDDEN) == Raised("unbound local", h);
    assert EvalArgs(MACHINE, q, 1, env, h, INNER.args) == Raised("unbound local", h);
  }

  // ---------------------------------------- one call: exactly when it shows

  /** References and operations on them, nested to any depth. */
  predicate Plain(e: Expr)
    decreases e
  {
    match e
    case Local(_) => true
    case Existing(_) => true
    case Operation(_, operands) => PlainAll(operands)
    case _ => false
  }

  predicate PlainAll(es: seq<Expr>)
    decreases es
  {
    es != [] ==> Plain(es[0]) && PlainAll(es[1..])
  }

  predicate PlainKeywords(ks: seq<Keyword>)
    decreases ks
  {
    ks != [] ==> Plain(ks[0].value) && PlainKeywords(ks[1..])
  }

  predicate PlainOptional(e: Option<Expr>) {
    e.Some? ==> Plain(e.value)
  }

  predicate PlainArgs(a: Args) {
    PlainAll(a.positional) && PlainKeywords(a.keywords) && PlainOptional(a.star) && PlainOptional(a.doubleStar)
  }

  /** A call of any of the three kinds whose parts are plain. */
  predicate PlainCall(e: Expr) {
    match e
    case Call(callee, args, _) => Plain(callee) && PlainArgs(args)
    case MethodCall(receiver, methodName, args, _) => Plain(receiver) && Plain(methodName) && PlainArgs(args)
    case DirectCall(_, selfarg, args, _) => PlainOptional(selfarg) && PlainArgs(args)
    case _ => false
  }

  lemma {:induction false} PlainIsSeen(v: LocalId, e: Expr)
    requires Plain(e)
    ensures HiddenClear(v, e) && (Applicable(v, e) <==> v !in Uses(e))
    decreases e
  {
    if e.Operation? {
      PlainAllSeen(v, e.operands);
    }
  }

  lemma {:induction false} PlainAllSeen(v: LocalId, es: seq<Expr>)
    requires PlainAll(es)
    ensures HiddenClearAll(v, es) && (ApplicableAll(v, es) <==> v !in UsesAll(es))
    decreases es
  {
    if es != [] {
      PlainIsSeen(v, es[0]);
      PlainAllSeen(v, es[1..]);
    }
  }

  lemma {:induction false} PlainKeywordsSeen(v: LocalId, ks: seq<Keyword>)
    requires PlainKeywords(ks)
    ensures HiddenClearKeywords(v, ks) && (ApplicableKeywords(v, ks) <==> v !in UsesKeywords(ks))
    decreases ks
  {
    if ks != [] {
      PlainIsSeen(v, ks[0].value);
      PlainKeywordsSeen(v, ks[1..]);
    }
  }

  /** What the analysis looks at in a call: callee or receiver, positional and keyword
      arguments, and whether `*args` is the local itself. */
  function Seen(e: Expr): set<LocalId> {
    match e
    case Call(callee, args, _) => Uses(callee) + UsesAll(args.positional) + UsesKeywords(args.keywords)
    case MethodCall(receiver, _, args, _) => Uses(receiver) + UsesAll(args.positional) + UsesKeywords(args.keywords)
    case DirectCall(_, selfarg, args, _) =>
      UsesOptional(selfarg) + UsesAll(args.positional) + UsesKeywords(args.keywords)
    case _ => Uses(e)
  }

  /** What it skips: the method's name and the operands of `*` and `**`. */
  function Skipped(e: Expr): set<LocalId> {
    match e
    case Call(_, args, _) => UsesOptional(args.star) + UsesOptional(args.doubleStar)
    case MethodCall(_, methodName, args, _) =>
      Uses(methodName) + UsesOptional(args.star) + UsesOptional(args.doubleStar)
    case DirectCall(_, _, args, _) => UsesOptional(args.star) + UsesOptional(args.doubleStar)
    case _ => {}
  }

  /** For one call over plain parts, what the analysis sees and what it misses. */
  lemma {:induction false} OneCallSplits(v: LocalId, e: Expr)
    requires PlainCall(e)
    ensures Applicable(v, e) <==> v !in Seen(e) && e.args.star != Some(Local(v))
    ensures e.args.star != Some(Local(v)) ==> (HiddenClear(v, e) <==> v !in Skipped(e))
  {
    PlainAllSeen(v, e.args.positional);
    PlainKeywordsSeen(v, e.args.keywords);
    if e.Call? {
      PlainIsSeen(v, e.callee);
    } else if e.MethodCall? {
      PlainIsSeen(v, e.receiver);
    } else if e.selfarg.Some? {
      PlainIsSeen(v, e.selfarg.value);
    }
  }

  /** Operations succeed and change nothing, and no attribute is found. */
  const CALM := Machine((name, operands, h) => Done(NoneValue, h), (receiver, name) => None)

  /** Without effect, and failing exactly when some local is not bound. */
  ghost predicate OnlyReads<T(!new)>(o: Outcome<T>, ids: set<LocalId>, env: Env, h: Store) {
    if ids <= env.Keys then o.Done? && o.store == h else o == Raised("unbound local", h)
  }

  lemma {:induction false} PlainReads(p: Program, env: Env, h: Store, e: Expr)
    requires Plain(e)
    ensures OnlyReads(Eval(CALM, p, 0, env, h, e), Uses(e), env, h)
    decreases e
  {
    match e
    case Local(_) =>
    case Existing(_) =>
    case Operation(_, operands) => PlainAllRead(p, env, h, operands);
  }

  lemma {:induction false} PlainAllRead(p: Program, env: Env, h: Store, es: seq<Expr>)
    requires PlainAll(es)
    ensures OnlyReads(EvalAll(CALM, p, 0, env, h, es), UsesAll(es), env, h)
    decreases es
  {
    if es != [] {
      PlainReads(p, env, h, es[0]);
      PlainAllRead(p, env, h, es[1..]);
    }
  }

  lemma {:induction false} PlainKeywordsRead(p: Program, env: Env, h: Store, ks: seq<Keyword>)
    requires PlainKeywords(ks)
    ensures OnlyReads(EvalKeywords(CALM, p, 0, env, h, ks), UsesKeywords(ks), env, h)
    decreases ks
  {
    if ks != [] {
      PlainReads(p, env, h, ks[0].value);
      PlainKeywordsRead(p, env, h, ks[1..]);
    }
  }

  lemma {:induction false} PlainOptionalReads(p: Program, env: Env, h: Store, e: Option<Expr>)
    requires PlainOptional(e)
    ensures OnlyReads(EvalOptional(CALM, p, 0, env, h, e), UsesOptional(e), env, h)
  {
    if e.Some? {
      PlainReads(p, env, h, e.value);
    }
  }

  /** The failure for an unbound local shows exactly when there is one. */
  ghost predicate FailsExactly<T(!new)>(o: Outcome<T>, ids: set<LocalId>, env: Env, h: Store) {
    && (o.Done? ==> o.store == h)
    && (o == Raised("unbound local", h) <==> !(ids <= env.Keys))
  }

  lemma {:induction false} PlainArgsFail(p: Program, env: Env, h: Store, a: Args)
    requires PlainArgs(a)
    ensures FailsExactly(EvalArgs(CALM, p, 0, env, h, a), UsesArgs(a), env, h)
  {
    PlainAllRead(p, env, h, a.positional);
    PlainKeywordsRead(p, env, h, a.keywords);
    PlainOptionalReads(p, env, h, a.star);
    PlainOptionalReads(p, env, h, a.doubleStar);
    assert "unbound local"[0] != "argument after * must be iterable"[0];
    assert "unbound local"[0] != "argument after ** must be a mapping"[0];
  }

  /** Without fuel no call gets through, so what shows is whether its parts read
      an unbound local. */
  lemma {:induction false} PlainCallFails(p: Program, env: Env, h: Store, e: Expr)
    requires PlainCall(e)
    ensures FailsExactly(Eval(CALM, p, 0, env, h, e), Uses(e), env, h)
  {
    assert "unbound local"[0] != "not callable"[0] && "unbound local"[0] != "no attribute"[0];
    if e.Call? {
      PlainReads(p, env, h, e.callee);
      PlainArgsFail(p, env, h, e.args);
    } else if e.MethodCall? {
      PlainReads(p, env, h, e.receiver);
      PlainReads(p, env, h, e.methodName);
      PlainArgsFail(p, env, h, e.args);
    } else {
      PlainOptionalReads(p, env, h, e.selfarg);
      PlainArgsFail(p, env, h, e.args);
    }
  }

  lemma {:induction false} PlainUnchanged(r: Rewriting, e: Expr)
    requires Plain(e)
    ensures Rewrite(r, e) == e
    decreases e
  {
    if e.Operation? {
      PlainAllUnchanged(r, e.operands);
    }
  }

  lemma {:induction false} PlainAllUnchanged(r: Rewriting, es: seq<Expr>)
    requires PlainAll(es)
    ensures RewriteAll(r, es) == es
    decreases es
  {
    if es != [] {
      PlainUnchanged(r, es[0]);
      PlainAllUnchanged(r, es[1..]);
    }
  }

  lemma {:induction false} PlainKeywordsUnchanged(r: Rewriting, ks: seq<Keyword>)
    requires PlainKeywords(ks)
    ensures RewriteKeywords(r, ks) == ks
    decreases ks
  {
    if ks != [] {
      PlainUnchanged(r, ks[0].value);
      PlainKeywordsUnchanged(r, ks[1..]);
    }
  }

  lemma {:induction false} PlainOptionalUnchanged(r: Rewriting, e: Option<Expr>)
    requires PlainOptional(e)
    ensures RewriteOptional(r, e) == e
  {
    if e.Some? {
      PlainUnchanged(r, e.value);
    }
  }

  /** The analysis accepts no call that passes the local as `*args`, so the
      transformation leaves an accepted plain call as it is. */
  lemma {:induction false} PlainCallUnchanged(v: LocalId, extra: seq<LocalId>, e: Expr)
    requires PlainCall(e) && Applicable(v, e)
    ensures Rewrite(Spread(v, extra), e) == e
  {
    var r, a := Spread(v, extra), e.args;
    PlainAllUnchanged(r, a.positional);
    PlainKeywordsUnchanged(r, a.keywords);
    PlainOptionalUnchanged(r, a.star);
    PlainOptionalUnchanged(r, a.doubleStar);
    assert RewriteArgs(r, a) == a;
    if e.Call? {
      PlainUnchanged(r, e.callee);
    } else if e.MethodCall? {
      PlainUnchanged(r, e.receiver);
      PlainUnchanged(r, e.methodName);
    } else {
      PlainOptionalUnchanged(r, e.selfarg);
    }
  }

  /** A code that returns one plain call of its parameters, accepted by the
      analysis and, at every site that may reach it, by the blocker. */
  ghost predicate ReturnsOneCall(w: Normalization, e: Expr) {
    && w.c in w.p && w.p[w.c].body == [Return(e)] && PlainCall(e)
    && w.Params().vparam.Some? && w.Params().selfparam.None? && |w.Params().names| == |w.Params().params|
    && (forall d :: d in w.p ==> SitesBody(w.c, w.Arity(), w.p[d].body))
    && (forall i, j :: 0 <= i < j < |w.extra| ==> w.extra[i] != w.extra[j])
    && var v, slots := w.Params().vparam.value, w.Params().posonly + w.Params().params;
       && ApplicableBody(v, w.p[w.c].body)
       && v !in slots && w.Params().kparam != Some(v) && v !in w.extra
       && (forall x :: x in w.extra ==> x !in Uses(e))
       && (forall x :: x in Uses(e) ==> x == v || x in slots || w.Params().kparam == Some(x))
  }

  /** Every call with the accepted arguments has the same outcome in both programs. */
  ghost predicate SameWhenCalled(w: Normalization)
    requires w.c in w.p && w.Params().vparam.Some?
  {
    forall m: Machine, fuel: nat, self, a: Actuals, h :: a.keywords == [] && |a.positional| == w.Arity() ==>
      Invoke(m, w.p, fuel, w.c, self, a, h) == Invoke(m, w.Result(), fuel, w.c, self, a, h)
  }

  lemma {:induction false} InvokeFails(p: Program, c: CodeId, a: Actuals, h: Store, e: Expr)
    requires c in p && p[c].body == [Return(e)] && PlainCall(e) && Bind(p[c].parameters, None, a).Some?
    ensures Invoke(CALM, p, 0, c, None, a, h) == Raised("unbound local", h)
            <==> !(Uses(e) <= Bind(p[c].parameters, None, a).value.Keys)
  {
    var env := Bind(p[c].parameters, None, a).value;
    PlainCallFails(p, env, h, e);
    var o := Eval(CALM, p, 0, env, h, e);
    assert Exec(CALM, p, 0, env, h, [Return(e)]) == var v :- o; Done(Returned(v.0), v.1);
  }

  /** Where the locals of the call are bound: all before, all but the variadic one
      after. */
  lemma {:induction false} WhatIsBound(w: Normalization, e: Expr, a: Actuals)
    requires ReturnsOneCall(w, e) && a.keywords == [] && |a.positional| == w.Arity()
    ensures var p, q := w.Params(), Normalized(w.p[w.c], w.extra).parameters;
            && Bind(p, None, a).Some? && Uses(e) <= Bind(p, None, a).value.Keys
            && Bind(q, None, a).Some? && p.vparam.value !in Bind(q, None, a).value
  {
    var p, q := w.Params(), Normalized(w.p[w.c], w.extra).parameters;
    var n := SlotCount(p);
    BindExact(p, None, a);
    BindSpread(p, q, w.extra, None, a);
    ZipHasLocals(p.posonly + p.params, a.positional[..n]);
    ZipHasLocals(w.extra, a.positional[n..]);
  }

  /** For such a code, exactly when normalising it preserves every call of it under
      every machine: when no part that the analysis skips mentions the local. */
  lemma {:induction false} HiddenUseShowsExactly(w: Normalization, e: Expr)
    requires ReturnsOneCall(w, e)
    ensures SameWhenCalled(w) <==> HiddenClearBody(w.Params().vparam.value, w.p[w.c].body)
  {
    var v, body := w.Params().vparam.value, w.p[w.c].body;
    AcceptedBody(v, body);
    assert UsesBody(body) == Uses(e) by {
      assert body[1..] == [];
    }
    if HiddenClearBody(v, body) {
      UntouchedBody(Spread(v, w.extra), body);
      forall m: Machine, fuel: nat, self, a: Actuals, h | a.keywords == [] && |a.positional| == w.Arity()
        ensures Invoke(m, w.p, fuel, w.c, self, a, h) == Invoke(m, w.Result(), fuel, w.c, self, a, h)
      {
        SameInvoke(m, w, fuel, w.c, self, a, h);
      }
    } else {
      HiddenUseShows(w, e, Actuals(Repeat(NoneValue, w.Arity()), []), map[]);
    }
  }

  lemma {:induction false} HiddenUseShows(w: Normalization, e: Expr, a: Actuals, h: Store)
    requires ReturnsOneCall(w, e) && w.Params().vparam.value in Uses(e)
    requires a.keywords == [] && |a.positional| == w.Arity()
    ensures Invoke(CALM, w.p, 0, w.c, None, a, h) != Invoke(CALM, w.Result(), 0, w.c, None, a, h)
  {
    WhatIsBound(w, e, a);
    BodyUnchanged(w, e);
    InvokeFails(w.p, w.c, a, h, e);
    InvokeFails(w.Result(), w.c, a, h, e);
  }

  lemma {:induction false} BodyUnchanged(w: Normalization, e: Expr)
    requires ReturnsOneCall(w, e)
    ensures Normalized(w.p[w.c], w.extra).body == [Return(e)]
  {
    var v, body := w.Params().vparam.value, w.p[w.c].body;
    assert body[0] == Return(e) && body[1..] == [];
    assert ApplicableStmt(v, Return(e));
    PlainCallUnchanged(v, w.extra, e);
    assert RewriteStmt(Spread(v, w.extra), Return(e)) == Return(e);
    assert RewriteBody(Spread(v, w.extra), [Return(e)])
        == [Return(e)] + RewriteBody(Spread(v, w.extra), [Return(e)][1..]);
    assert body == [Return(e)];
  }
}
