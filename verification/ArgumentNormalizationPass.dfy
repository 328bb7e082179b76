/** The guards around argument normalisation and the pass over the live code
    (src/pyflow/optimization/argumentnormalization.py): what the analysis visits,
    what it does not visit, and that no entry point can observe the pass. */
module ArgumentNormalizationPass {
  import opened Wrappers
  import opened CallIR
  import opened ArgumentNormalization

  // --------------------------------------------------------- locals of a body

  function Uses(e: Expr): set<LocalId> {
    match e
    case Local(id) => {id}
    case Existing(_) => {}
    case Operation(_, operands) => UsesAll(operands)
    case Call(callee, args, _) => Uses(callee) + UsesArgs(args)
    case MethodCall(receiver, methodName, args, _) => Uses(receiver) + Uses(methodName) + UsesArgs(args)
    case DirectCall(_, selfarg, args, _) => UsesOptional(selfarg) + UsesArgs(args)
  }

  function UsesAll(es: seq<Expr>): set<LocalId> {
    if es == [] then {} else Uses(es[0]) + UsesAll(es[1..])
  }

  function UsesKeywords(ks: seq<Keyword>): set<LocalId> {
    if ks == [] then {} else Uses(ks[0].value) + UsesKeywords(ks[1..])
  }

  function UsesOptional(e: Option<Expr>): set<LocalId> {
    match e
    case None => {}
    case Some(x) => Uses(x)
  }

  function UsesArgs(a: Args): set<LocalId> {
    UsesAll(a.positional) + UsesKeywords(a.keywords) + UsesOptional(a.star) + UsesOptional(a.doubleStar)
  }

  function UsesStmt(s: Stmt): set<LocalId> {
    match s
    case Assign(value, target) => Uses(value) + {target}
    case Discard(value) => Uses(value)
    case Return(value) => Uses(value)
    case Switch(condition, whenTrue, whenFalse) => Uses(condition) + UsesBody(whenTrue) + UsesBody(whenFalse)
    case While(condition, body) => Uses(condition) + UsesBody(body)
  }

  function UsesBody(ss: seq<Stmt>): set<LocalId> {
    if ss == [] then {} else UsesStmt(ss[0]) + UsesBody(ss[1..])
  }

  // ------------------------------------------- what the analysis looks at

  /** `ArgumentNormalizationAnalysis` on an expression: calls have their callee,
      positional and keyword arguments visited, and `*args` only compared. */
  predicate Applicable(v: LocalId, e: Expr)
    decreases e
  {
    match e
    case Local(id) => id != v
    case Existing(_) => true
    case Operation(_, operands) => ApplicableAll(v, operands)
    case Call(callee, args, _) => Applicable(v, callee) && ApplicableArgs(v, args)
    case MethodCall(receiver, _, args, _) => Applicable(v, receiver) && ApplicableArgs(v, args)
    case DirectCall(_, selfarg, args, _) => (selfarg.Some? ==> Applicable(v, selfarg.value)) && ApplicableArgs(v, args)
  }

  predicate ApplicableAll(v: LocalId, es: seq<Expr>)
    decreases es
  {
    es != [] ==> Applicable(v, es[0]) && ApplicableAll(v, es[1..])
  }

  predicate ApplicableKeywords(v: LocalId, ks: seq<Keyword>)
    decreases ks
  {
    ks != [] ==> Applicable(v, ks[0].value) && ApplicableKeywords(v, ks[1..])
  }

  predicate ApplicableArgs(v: LocalId, a: Args)
    decreases a
  {
    ApplicableAll(v, a.positional) && ApplicableKeywords(v, a.keywords) && a.star != Some(Local(v))
  }

  predicate ApplicableStmt(v: LocalId, s: Stmt)
    decreases s
  {
    match s
    case Assign(value, target) => Applicable(v, value) && target != v
    case Discard(value) => Applicable(v, value)
    case Return(value) => Applicable(v, value)
    case Switch(condition, whenTrue, whenFalse) =>
      Applicable(v, condition) && ApplicableBody(v, whenTrue) && ApplicableBody(v, whenFalse)
    case While(condition, body) => Applicable(v, condition) && ApplicableBody(v, body)
  }

  predicate ApplicableBody(v: LocalId, ss: seq<Stmt>)
    decreases ss
  {
    ss != [] ==> ApplicableStmt(v, ss[0]) && ApplicableBody(v, ss[1..])
  }

  /** No expression that the analysis skips (method names, `*` and `**` operands
      other than the local itself) mentions the local. */
  predicate HiddenClear(v: LocalId, e: Expr)
    decreases e
  {
    match e
    case Local(_) => true
    case Existing(_) => true
    case Operation(_, operands) => HiddenClearAll(v, operands)
    case Call(callee, args, _) => HiddenClear(v, callee) && HiddenClearArgs(v, args)
    case MethodCall(receiver, methodName, args, _) =>
      HiddenClear(v, receiver) && v !in Uses(methodName) && HiddenClearArgs(v, args)
    case DirectCall(_, selfarg, args, _) =>
      (selfarg.Some? ==> HiddenClear(v, selfarg.value)) && HiddenClearArgs(v, args)
  }

  predicate HiddenClearAll(v: LocalId, es: seq<Expr>)
    decreases es
  {
    es != [] ==> HiddenClear(v, es[0]) && HiddenClearAll(v, es[1..])
  }

  predicate HiddenClearKeywords(v: LocalId, ks: seq<Keyword>)
    decreases ks
  {
    ks != [] ==> HiddenClear(v, ks[0].value) && HiddenClearKeywords(v, ks[1..])
  }

  predicate HiddenClearArgs(v: LocalId, a: Args)
    decreases a
  {
    && HiddenClearAll(v, a.positional) && HiddenClearKeywords(v, a.keywords)
    && (a.star == Some(Local(v)) || v !in UsesOptional(a.star)) && v !in UsesOptional(a.doubleStar)
  }

  predicate HiddenClearStmt(v: LocalId, s: Stmt)
    decreases s
  {
    match s
    case Assign(value, _) => HiddenClear(v, value)
    case Discard(value) => HiddenClear(v, value)
    case Return(value) => HiddenClear(v, value)
    case Switch(condition, whenTrue, whenFalse) =>
      HiddenClear(v, condition) && HiddenClearBody(v, whenTrue) && HiddenClearBody(v, whenFalse)
    case While(condition, body) => HiddenClear(v, condition) && HiddenClearBody(v, body)
  }

  predicate HiddenClearBody(v: LocalId, ss: seq<Stmt>)
    decreases ss
  {
    ss != [] ==> HiddenClearStmt(v, ss[0]) && HiddenClearBody(v, ss[1..])
  }

  // --------------------------------------------- how far the analysis reaches

  lemma {:induction false} AcceptedExpression(v: LocalId, e: Expr)
    ensures v !in Uses(e) <==> Applicable(v, e) && HiddenClear(v, e)
    decreases e
  {
    match e
    case Local(_) =>
    case Existing(_) =>
    case Operation(_, operands) => AcceptedAll(v, operands);
    case Call(callee, args, _) => AcceptedExpression(v, callee); AcceptedArgs(v, args);
    case MethodCall(receiver, _, args, _) => AcceptedExpression(v, receiver); AcceptedArgs(v, args);
    case DirectCall(_, selfarg, args, _) =>
      if selfarg.Some? {
        AcceptedExpression(v, selfarg.value);
      }
      AcceptedArgs(v, args);
  }

  lemma {:induction false} AcceptedAll(v: LocalId, es: seq<Expr>)
    ensures v !in UsesAll(es) <==> ApplicableAll(v, es) && HiddenClearAll(v, es)
    decreases es
  {
    if es != [] {
      AcceptedExpression(v, es[0]);
      AcceptedAll(v, es[1..]);
    }
  }

  lemma {:induction false} AcceptedKeywords(v: LocalId, ks: seq<Keyword>)
    ensures v !in UsesKeywords(ks) <==> ApplicableKeywords(v, ks) && HiddenClearKeywords(v, ks)
    decreases ks
  {
    if ks != [] {
      AcceptedExpression(v, ks[0].value);
      AcceptedKeywords(v, ks[1..]);
    }
  }

  lemma {:induction false} AcceptedArgs(v: LocalId, a: Args)
    ensures v !in UsesArgs(a) <==> ApplicableArgs(v, a) && HiddenClearArgs(v, a)
    decreases a
  {
    AcceptedAll(v, a.positional);
    AcceptedKeywords(v, a.keywords);
    assert v in Uses(Local(v));
  }

  lemma {:induction false} AcceptedStmt(v: LocalId, s: Stmt)
    ensures v !in UsesStmt(s) <==> ApplicableStmt(v, s) && HiddenClearStmt(v, s)
    decreases s
  {
    match s
    case Assign(value, _) => AcceptedExpression(v, value);
    case Discard(value) => AcceptedExpression(v, value);
    case Return(value) => AcceptedExpression(v, value);
    case Switch(condition, whenTrue, whenFalse) =>
      AcceptedExpression(v, condition);
      AcceptedBody(v, whenTrue);
      AcceptedBody(v, whenFalse);
    case While(condition, body) =>
      AcceptedExpression(v, condition);
      AcceptedBody(v, body);
  }

  /** A body accepted by the analysis is free of the variadic local exactly when
      the expressions the analysis skips are. */
  lemma {:induction false} AcceptedBody(v: LocalId, ss: seq<Stmt>)
    ensures v !in UsesBody(ss) <==> ApplicableBody(v, ss) && HiddenClearBody(v, ss)
    decreases ss
  {
    if ss != [] {
      AcceptedStmt(v, ss[0]);
      AcceptedBody(v, ss[1..]);
    }
  }

  // --------------------------------------- bodies without the rewritten locals

  ghost predicate Untouched(r: Rewriting, ids: set<LocalId>) {
    r.Spread? && r.v !in ids && forall x :: x in r.extra ==> x !in ids
  }

  lemma {:induction false} UntouchedExpression(r: Rewriting, e: Expr)
    requires Untouched(r, Uses(e))
    ensures Only(r, e) && Rewrite(r, e) == e
    decreases e
  {
    match e
    case Local(_) =>
    case Existing(_) =>
    case Operation(_, operands) => UntouchedAll(r, operands);
    case Call(callee, args, _) => UntouchedExpression(r, callee); UntouchedArgs(r, args);
    case MethodCall(receiver, methodName, args, _) =>
      UntouchedExpression(r, receiver);
      UntouchedExpression(r, methodName);
      UntouchedArgs(r, args);
    case DirectCall(_, selfarg, args, _) => UntouchedOptional(r, selfarg); UntouchedArgs(r, args);
  }

  lemma {:induction false} UntouchedAll(r: Rewriting, es: seq<Expr>)
    requires Untouched(r, UsesAll(es))
    ensures OnlyAll(r, es) && RewriteAll(r, es) == es
    decreases es
  {
    if es != [] {
      UntouchedExpression(r, es[0]);
      UntouchedAll(r, es[1..]);
    }
  }

  lemma {:induction false} UntouchedKeywords(r: Rewriting, ks: seq<Keyword>)
    requires Untouched(r, UsesKeywords(ks))
    ensures OnlyKeywords(r, ks) && RewriteKeywords(r, ks) == ks
    decreases ks
  {
    if ks != [] {
      UntouchedExpression(r, ks[0].value);
      UntouchedKeywords(r, ks[1..]);
    }
  }

  lemma {:induction false} UntouchedOptional(r: Rewriting, e: Option<Expr>)
    requires Untouched(r, UsesOptional(e))
    ensures OnlyOptional(r, e) && RewriteOptional(r, e) == e
    decreases e
  {
    match e
    case None =>
    case Some(x) => UntouchedExpression(r, x);
  }

  lemma {:induction false} UntouchedArgs(r: Rewriting, a: Args)
    requires Untouched(r, UsesArgs(a))
    ensures OnlyArgs(r, a) && RewriteArgs(r, a) == a && !PassesVariadic(r, a)
    decreases a
  {
    UntouchedAll(r, a.positional);
    UntouchedKeywords(r, a.keywords);
    UntouchedOptional(r, a.star);
    UntouchedOptional(r, a.doubleStar);
  }

  lemma {:induction false} UntouchedStmt(r: Rewriting, s: Stmt)
    requires Untouched(r, UsesStmt(s))
    ensures OnlyStmt(r, s) && RewriteStmt(r, s) == s
    decreases s
  {
    match s
    case Assign(value, _) => UntouchedExpression(r, value);
    case Discard(value) => UntouchedExpression(r, value);
    case Return(value) => UntouchedExpression(r, value);
    case Switch(condition, whenTrue, whenFalse) =>
      UntouchedExpression(r, condition);
      UntouchedBody(r, whenTrue);
      UntouchedBody(r, whenFalse);
    case While(condition, body) =>
      UntouchedExpression(r, condition);
      UntouchedBody(r, body);
  }

  lemma {:induction false} UntouchedBody(r: Rewriting, ss: seq<Stmt>)
    requires Untouched(r, UsesBody(ss))
    ensures OnlyBody(r, ss) && RewriteBody(r, ss) == ss
    decreases ss
  {
    if ss != [] {
      UntouchedStmt(r, ss[0]);
      UntouchedBody(r, ss[1..]);
    }
  }

  // ---------------------------------------------------------------- the pass

  /** What the analyses know of a code object. `lengths` lists the lengths found
      for its variadic tuple; None inside is a length that is not an existing
      constant, None outside a missing fact. */
  datatype Facts = Facts(standard: bool, descriptive: bool, lengths: Option<seq<Option<nat>>>)

  /** The length for which `ArgumentNormalizationAnalysis.process` reports a code
      applicable. */
  function ApplicableLength(code: Code, facts: Facts): Option<nat> {
    if !facts.standard || facts.descriptive || code.parameters.vparam.None? || facts.lengths.None? then None
    else
      var lengths := facts.lengths.value;
      if && lengths != [] && (forall l :: l in lengths ==> l == lengths[0])
         && ApplicableBody(code.parameters.vparam.value, code.body)
      then lengths[0] else None
  }

  /** `_normalization_blocker` reports no reason. */
  predicate Unblocked(p: Program, entries: set<CodeId>, c: CodeId, n: nat)
    requires c in p
  {
    && c !in entries
    && p[c].parameters.selfparam.None?
    && forall d :: d in p ==> SitesBody(c, SlotCount(p[c].parameters) + n, p[d].body)
  }

  /** Exactly when the analysis reports a length: for standard code that is not
      descriptive, has a variadic local of which all known lengths are that one, and
      uses the local nowhere the analysis looks. */
  lemma {:induction false} ApplicableExactly(code: Code, facts: Facts, n: nat)
    ensures ApplicableLength(code, facts) == Some(n) <==>
              && facts.standard && !facts.descriptive && code.parameters.vparam.Some? && facts.lengths.Some?
              && (set l | l in facts.lengths.value) == {Some(n)}
              && ApplicableBody(code.parameters.vparam.value, code.body)
  {
    if facts.lengths.Some? {
      var lengths := facts.lengths.value;
      var found := set l | l in lengths;
      if found == {Some(n)} {
        assert Some(n) in found;
        assert forall l :: l in lengths ==> l in found;
      }
      if lengths != [] {
        assert lengths[0] in found;
      }
    }
  }

  /** A call somewhere in a tree: its target facts and its arguments. */
  datatype Site = Site(targets: set<CodeId>, args: Args)

  function CallSites(e: Expr): set<Site> {
    match e
    case Local(_) => {}
    case Existing(_) => {}
    case Operation(_, operands) => CallSitesAll(operands)
    case Call(callee, args, targets) => {Site(targets, args)} + CallSites(callee) + CallSitesArgs(args)
    case MethodCall(receiver, methodName, args, targets) =>
      {Site(targets, args)} + CallSites(receiver) + CallSites(methodName) + CallSitesArgs(args)
    case DirectCall(_, selfarg, args, targets) =>
      {Site(targets, args)} + CallSitesOptional(selfarg) + CallSitesArgs(args)
  }

  function CallSitesAll(es: seq<Expr>): set<Site> {
    if es == [] then {} else CallSites(es[0]) + CallSitesAll(es[1..])
  }

  function CallSitesKeywords(ks: seq<Keyword>): set<Site> {
    if ks == [] then {} else CallSites(ks[0].value) + CallSitesKeywords(ks[1..])
  }

  function CallSitesOptional(e: Option<Expr>): set<Site> {
    match e
    case None => {}
    case Some(x) => CallSites(x)
  }

  function CallSitesArgs(a: Args): set<Site> {
    CallSitesAll(a.positional) + CallSitesKeywords(a.keywords) + CallSitesOptional(a.star)
    + CallSitesOptional(a.doubleStar)
  }

  function CallSitesStmt(s: Stmt): set<Site> {
    match s
    case Assign(value, _) => CallSites(value)
    case Discard(value) => CallSites(value)
    case Return(value) => CallSites(value)
    case Switch(condition, whenTrue, whenFalse) =>
      CallSites(condition) + CallSitesBody(whenTrue) + CallSitesBody(whenFalse)
    case While(condition, body) => CallSites(condition) + CallSitesBody(body)
  }

  function CallSitesBody(ss: seq<Stmt>): set<Site> {
    if ss == [] then {} else CallSitesStmt(ss[0]) + CallSitesBody(ss[1..])
  }

  /** A call that may reach the code reaches nothing else, and passes so many
      positional arguments and nothing besides. */
  predicate Matching(c: CodeId, arity: nat, site: Site) {
    c in site.targets ==>
      && site.targets == {c} && |site.args.positional| == arity && site.args.keywords == []
      && site.args.star.None? && site.args.doubleStar.None?
  }

  predicate AllMatch(c: CodeId, arity: nat, sites: set<Site>) {
    forall site :: site in sites ==> Matching(c, arity, site)
  }

  lemma {:induction false} SitesMatch(c: CodeId, arity: nat, e: Expr)
    ensures Sites(c, arity, e) <==> AllMatch(c, arity, CallSites(e))
    decreases e
  {
    match e
    case Local(_) =>
    case Existing(_) =>
    case Operation(_, operands) => AllSitesMatch(c, arity, operands);
    case Call(callee, args, targets) =>
      assert Site(targets, args) in CallSites(e);
      SitesMatch(c, arity, callee);
      ArgsSitesMatch(c, arity, args);
    case MethodCall(receiver, methodName, args, targets) =>
      assert Site(targets, args) in CallSites(e);
      SitesMatch(c, arity, receiver);
      SitesMatch(c, arity, methodName);
      ArgsSitesMatch(c, arity, args);
    case DirectCall(_, selfarg, args, targets) =>
      assert Site(targets, args) in CallSites(e);
      if selfarg.Some? {
        SitesMatch(c, arity, selfarg.value);
      }
      ArgsSitesMatch(c, arity, args);
  }

  lemma {:induction false} AllSitesMatch(c: CodeId, arity: nat, es: seq<Expr>)
    ensures SitesAll(c, arity, es) <==> AllMatch(c, arity, CallSitesAll(es))
    decreases es
  {
    if es != [] {
      SitesMatch(c, arity, es[0]);
      AllSitesMatch(c, arity, es[1..]);
    }
  }

  lemma {:induction false} KeywordSitesMatch(c: CodeId, arity: nat, ks: seq<Keyword>)
    ensures SitesKeywords(c, arity, ks) <==> AllMatch(c, arity, CallSitesKeywords(ks))
    decreases ks
  {
    if ks != [] {
      SitesMatch(c, arity, ks[0].value);
      KeywordSitesMatch(c, arity, ks[1..]);
    }
  }

  lemma {:induction false} ArgsSitesMatch(c: CodeId, arity: nat, a: Args)
    ensures SitesArgs(c, arity, a) <==> AllMatch(c, arity, CallSitesArgs(a))
    decreases a
  {
    AllSitesMatch(c, arity, a.positional);
    KeywordSitesMatch(c, arity, a.keywords);
    if a.star.Some? {
      SitesMatch(c, arity, a.star.value);
    }
    if a.doubleStar.Some? {
      SitesMatch(c, arity, a.doubleStar.value);
    }
  }

  lemma {:induction false} StmtSitesMatch(c: CodeId, arity: nat, s: Stmt)
    ensures SitesStmt(c, arity, s) <==> AllMatch(c, arity, CallSitesStmt(s))
    decreases s
  {
    match s
    case Assign(value, _) => SitesMatch(c, arity, value);
    case Discard(value) => SitesMatch(c, arity, value);
    case Return(value) => SitesMatch(c, arity, value);
    case Switch(condition, whenTrue, whenFalse) =>
      SitesMatch(c, arity, condition);
      BodySitesMatch(c, arity, whenTrue);
      BodySitesMatch(c, arity, whenFalse);
    case While(condition, body) =>
      SitesMatch(c, arity, condition);
      BodySitesMatch(c, arity, body);
  }

  lemma {:induction false} BodySitesMatch(c: CodeId, arity: nat, ss: seq<Stmt>)
    ensures SitesBody(c, arity, ss) <==> AllMatch(c, arity, CallSitesBody(ss))
    decreases ss
  {
    if ss != [] {
      StmtSitesMatch(c, arity, ss[0]);
      BodySitesMatch(c, arity, ss[1..]);
    }
  }

  /** Exactly when the blocker lets a code pass: when it is no entry point and no
      method, and every call in the program that may reach it matches. */
  lemma {:induction false} UnblockedExactly(p: Program, entries: set<CodeId>, c: CodeId, n: nat)
    requires c in p
    ensures Unblocked(p, entries, c, n) <==>
              && c !in entries && p[c].parameters.selfparam.None?
              && forall d :: d in p ==>
                   AllMatch(c, |p[c].parameters.posonly| + |p[c].parameters.params| + n, CallSitesBody(p[d].body))
  {
    var arity := SlotCount(p[c].parameters) + n;
    assert arity == |p[c].parameters.posonly| + |p[c].parameters.params| + n;
    forall d | d in p
      ensures SitesBody(c, arity, p[d].body) <==> AllMatch(c, arity, CallSitesBody(p[d].body))
    {
      BodySitesMatch(c, arity, p[d].body);
    }
  }

  /** The length to which the pass normalises code c, if it does. */
  function Chosen(p: Program, entries: set<CodeId>, facts: map<CodeId, Facts>, c: CodeId): Option<nat>
    requires c in p && c in facts
  {
    var n := ApplicableLength(p[c], facts[c]);
    if n.Some? && Unblocked(p, entries, c, n.value) then n else None
  }

  /** Exactly the lengths that analysis and blocker accept are chosen, zero included. */
  lemma {:induction false} ChosenExactly(
    p: Program, entries: set<CodeId>, facts: map<CodeId, Facts>, c: CodeId, n: nat)
    requires c in p && c in facts
    ensures Chosen(p, entries, facts, c) == Some(n) <==>
              && facts[c].standard && !facts[c].descriptive && p[c].parameters.vparam.Some?
              && facts[c].lengths.Some? && (set l | l in facts[c].lengths.value) == {Some(n)}
              && ApplicableBody(p[c].parameters.vparam.value, p[c].body)
              && c !in entries && p[c].parameters.selfparam.None?
              && forall d :: d in p ==>
                   AllMatch(c, |p[c].parameters.posonly| + |p[c].parameters.params| + n, CallSitesBody(p[d].body))
  {
    ApplicableExactly(p[c], facts[c], n);
    UnblockedExactly(p, entries, c, n);
  }

  /** Names match parameters, and locals from `next` on are unused. */
  ghost predicate WellFormed(p: Program, next: LocalId) {
    forall c :: c in p ==>
      && |p[c].parameters.names| == |p[c].parameters.params|
      && forall x :: x in UsesBody(p[c].body) ==> x < next
  }

  ghost predicate NoHiddenUse(p: Program) {
    forall c :: c in p && p[c].parameters.vparam.Some? ==> HiddenClearBody(p[c].parameters.vparam.value, p[c].body)
  }

  /** Every call of an entry point gives the same outcome in both programs. */
  ghost predicate SameCalls(p: Program, q: Program, entries: set<CodeId>) {
    forall m: Machine, fuel: nat, entry, self, a, h :: entry in entries ==>
      Invoke(m, p, fuel, entry, self, a, h) == Invoke(m, q, fuel, entry, self, a, h)
  }

  function NewLocals(next: LocalId, n: nat): (r: seq<LocalId>)
    ensures |r| == n && forall i :: 0 <= i < n ==> r[i] == next + i
  {
    seq(n, i => next + i)
  }

  lemma {:induction false} NormalizingOne(
    p: Program, entries: set<CodeId>, facts: map<CodeId, Facts>, c: CodeId, next: LocalId)
    requires c in p && c in facts && WellFormed(p, next) && Chosen(p, entries, facts, c).Some?
    requires HiddenClearBody(p[c].parameters.vparam.value, p[c].body)
    ensures var n := Chosen(p, entries, facts, c).value;
            var q := p[c := Normalized(p[c], NewLocals(next, n))];
            SameCalls(p, q, entries) && q[c].body == p[c].body && WellFormed(q, next + n)
  {
    var n := Chosen(p, entries, facts, c).value;
    var w := Normalization(p, c, NewLocals(next, n));
    var r := Spread(p[c].parameters.vparam.value, NewLocals(next, n));
    AcceptedBody(r.v, p[c].body);
    UntouchedBody(r, p[c].body);
    assert w.Valid();
    forall m: Machine, fuel: nat, entry, self, a, h | entry in entries
      ensures Invoke(m, p, fuel, entry, self, a, h) == Invoke(m, w.Result(), fuel, entry, self, a, h)
    {
      NormalizationPreservesCalls(m, w, fuel, entry, self, a, h);
    }
  }

  /** Same code, or the same code normalised to n extra parameters that occur nowhere. */
  ghost predicate NormalizedTo(before: Code, after: Code, n: Option<nat>) {
    if n.None? then after == before
    else
      && before.parameters.vparam.Some?
      && exists extra: seq<LocalId> ::
         |extra| == n.value && after == Normalized(before, extra) && after.body == before.body
                        && forall i :: 0 <= i < |extra| ==> extra[i] !in UsesBody(before.body)
  }

  /** Only parameters have changed, and only those of codes in `done`. */
  ghost predicate Progress(
    p0: Program, p: Program, entries: set<CodeId>, facts: map<CodeId, Facts>, pending: set<CodeId>)
    requires p0.Keys <= facts.Keys
  {
    && p.Keys == p0.Keys
    && (forall c :: c in p ==> p[c].body == p0[c].body)
    && (forall c :: c in p && c in pending ==> p[c] == p0[c])
    && (forall c :: c in p && c !in pending ==> NormalizedTo(p0[c], p[c], Chosen(p0, entries, facts, c)))
  }

  lemma {:induction false} ChoiceIsStable(
    p0: Program, p: Program, entries: set<CodeId>, facts: map<CodeId, Facts>, pending: set<CodeId>, c: CodeId)
    requires p0.Keys <= facts.Keys && Progress(p0, p, entries, facts, pending) && c in p && c in pending
    ensures Chosen(p, entries, facts, c) == Chosen(p0, entries, facts, c)
  {
    assert forall d :: d in p <==> d in p0;
    var n := ApplicableLength(p[c], facts[c]);
    if n.Some? {
      assert Unblocked(p, entries, c, n.value) <==> Unblocked(p0, entries, c, n.value);
    }
  }

  ghost predicate AnyChosen(p: Program, entries: set<CodeId>, facts: map<CodeId, Facts>, pending: set<CodeId>)
    requires p.Keys <= facts.Keys
  {
    exists c :: c in p && c !in pending && Chosen(p, entries, facts, c).Some?
  }

  /** Leaving a code alone is progress when it was not chosen. */
  lemma {:induction false} Skipped(
    p0: Program, p: Program, entries: set<CodeId>, facts: map<CodeId, Facts>, pending: set<CodeId>, c: CodeId)
    requires p0.Keys <= facts.Keys && Progress(p0, p, entries, facts, pending) && c in p && c in pending
    requires Chosen(p0, entries, facts, c).None?
    ensures Progress(p0, p, entries, facts, pending - {c})
    ensures AnyChosen(p0, entries, facts, pending - {c}) <==> AnyChosen(p0, entries, facts, pending)
  {
    forall d | d in p && d !in pending - {c}
      ensures NormalizedTo(p0[d], p[d], Chosen(p0, entries, facts, d))
    {
    }
  }

  lemma {:induction false} Advanced(
    p0: Program, p: Program, q: Program, entries: set<CodeId>, facts: map<CodeId, Facts>, pending: set<CodeId>,
    c: CodeId, extra: seq<LocalId>)
    requires p0.Keys <= facts.Keys && Progress(p0, p, entries, facts, pending) && c in p && c in pending
    requires Chosen(p0, entries, facts, c) == Some(|extra|) && p[c].parameters.vparam.Some?
    requires q == p[c := Normalized(p[c], extra)] && q[c].body == p[c].body
    requires forall i :: 0 <= i < |extra| ==> extra[i] !in UsesBody(p[c].body)
    ensures Progress(p0, q, entries, facts, pending - {c}) && AnyChosen(p0, entries, facts, pending - {c})
  {
    forall d | d in q && d !in pending - {c}
      ensures NormalizedTo(p0[d], q[d], Chosen(p0, entries, facts, d))
    {
      if d == c {
        assert q[d] == Normalized(p0[d], extra);
      }
    }
  }

  lemma {:induction false} CallsCompose(p: Program, q: Program, r: Program, entries: set<CodeId>)
    requires SameCalls(p, q, entries) && SameCalls(q, r, entries)
    ensures SameCalls(p, r, entries)
  {
  }

  class Pass {
    const entries: set<CodeId>
    const facts: map<CodeId, Facts>
    var codes: Program
    var nextLocal: LocalId

    constructor (entries: set<CodeId>, facts: map<CodeId, Facts>, codes: Program, nextLocal: LocalId)
      ensures this.entries == entries && this.facts == facts && this.codes == codes && this.nextLocal == nextLocal
    {
      this.entries, this.facts, this.codes, this.nextLocal := entries, facts, codes, nextLocal;
    }

    /** `ArgumentNormalizationTransform.process`. */
    method Process(c: CodeId, n: nat)
      requires c in codes && codes[c].parameters.vparam.Some?
      modifies this
      ensures codes == old(codes)[c := Normalized(old(codes)[c], NewLocals(old(nextLocal), n))]
      ensures nextLocal == old(nextLocal) + n
    {
      codes := codes[c := Normalized(codes[c], NewLocals(nextLocal, n))];
      nextLocal := nextLocal + n;
    }

    /** `evaluate`: visits the live code in any order. What happens to a code
        depends on the program before the pass only, and no call of an entry
        point changes its outcome. */
    method Evaluate() returns (changed: bool)
      requires codes.Keys <= facts.Keys && WellFormed(codes, nextLocal) && NoHiddenUse(codes)
      modifies this
      ensures codes.Keys == old(codes.Keys)
      ensures forall c :: c in codes ==> NormalizedTo(old(codes)[c], codes[c], Chosen(old(codes), entries, facts, c))
      ensures SameCalls(old(codes), codes, entries)
      ensures changed <==> AnyChosen(old(codes), entries, facts, {})
    {
      changed := false;
      ghost var p0 := codes;
      var pending := codes.Keys;
      while pending != {}
        invariant pending <= codes.Keys && WellFormed(codes, nextLocal) && Progress(p0, codes, entries, facts, pending)
        invariant SameCalls(p0, codes, entries)
        invariant changed <==> AnyChosen(p0, entries, facts, pending)
        decreases |pending|
      {
        var c :| c in pending;
        ChoiceIsStable(p0, codes, entries, facts, pending, c);
        var n := Chosen(codes, entries, facts, c);
        if n.Some? {
          ghost var p, next := codes, nextLocal;
          NormalizingOne(p, entries, facts, c, next);
          Process(c, n.value);
          Advanced(p0, p, codes, entries, facts, pending, c, NewLocals(next, n.value));
          CallsCompose(p0, p, codes, entries);
          changed := true;
        } else {
          Skipped(p0, codes, entries, facts, pending, c);
        }
        pending := pending - {c};
      }
    }
  }
}
