/** The context-sensitive call graph search (src/pyflow/analysis/programculler.py)
    and the direct-call worklist (src/pyflow/api/ifds.py), against reachability. */
module ProgramCuller {
  import opened Wrappers
  import opened Reachability

  type Code = nat
  type Context = nat

  datatype Node = Node(code: Code, context: Context)

  /** The call targets of each operation of a code in one context, in the order of
      the operations; None where no fact was published. */
  type Operations = seq<Option<set<Node>>>
  type Calls = map<Node, Operations>

  /** The call targets of the first n operations. */
  function TargetsUpTo(ops: Operations, n: nat): set<Node>
    requires n <= |ops|
  {
    if n == 0 then {} else TargetsUpTo(ops, n - 1) + ops[n - 1].GetOr({})
  }

  /** Every call fact of the node is published. */
  predicate HasFacts(calls: Calls, n: Node) {
    n in calls && forall i :: 0 <= i < |calls[n]| ==> calls[n][i].Some?
  }

  function Edges(calls: Calls): map<Node, set<Node>> {
    map n | n in calls && HasFacts(calls, n) :: TargetsUpTo(calls[n], |calls[n]|)
  }

  /** One node calls another: all its facts are published and one names the other. */
  lemma {:induction false} EdgesMean(calls: Calls, n: Node, m: Node)
    ensures m in Succ(Edges(calls), n) <==>
              && n in calls && (forall i :: 0 <= i < |calls[n]| ==> calls[n][i].Some?)
              && exists i :: 0 <= i < |calls[n]| && m in calls[n][i].value
  {
    if n in calls && HasFacts(calls, n) {
      TargetsMean(calls[n], |calls[n]|, m);
    }
  }

  lemma {:induction false} TargetsMean(ops: Operations, n: nat, m: Node)
    requires n <= |ops| && forall i :: 0 <= i < n ==> ops[i].Some?
    ensures m in TargetsUpTo(ops, n) <==> exists i :: 0 <= i < n && m in ops[i].value
  {
    if n > 0 {
      TargetsMean(ops, n - 1, m);
    }
  }

  /** Some node below the root lacks a call fact. */
  ghost predicate MissingBelow(calls: Calls, root: Node) {
    exists x :: Reaches(Edges(calls), {root}, x) && !HasFacts(calls, x)
  }

  // ---------------------------------------------------- what the search records

  function Codes(nodes: set<Node>): set<Code> {
    set n | n in nodes :: n.code
  }

  function ContextsOf(nodes: set<Node>, c: Code): set<Context> {
    set n | n in nodes && n.code == c :: n.context
  }

  function CalleesOf(calls: Calls, nodes: set<Node>, c: Code): set<Code> {
    set n, m | n in nodes && n.code == c && m in Succ(Edges(calls), n) :: m.code
  }

  /** The recorded tables are exactly the projections of the processed nodes. */
  ghost predicate Records(
    calls: Calls, processed: set<Node>, liveFunc: set<Code>, liveFuncContext: map<Code, set<Context>>,
    invokes: map<Code, set<Code>>, invokesContext: map<Node, set<Node>>)
  {
    && liveFunc == Codes(processed)
    && ContextTable(processed, liveFunc, liveFuncContext)
    && CalleeTable(calls, processed, liveFunc, invokes)
    && NodeTable(calls, processed, invokesContext)
  }

  function At<K, V>(m: map<K, set<V>>, k: K): set<V> {
    if k in m then m[k] else {}
  }

  lemma {:induction false} RecordsStep(
    calls: Calls, processed: set<Node>, liveFunc: set<Code>, liveFuncContext: map<Code, set<Context>>,
    invokes: map<Code, set<Code>>, invokesContext: map<Node, set<Node>>, n: Node, targets: set<Node>)
    requires Records(calls, processed, liveFunc, liveFuncContext, invokes, invokesContext)
    requires n !in processed && targets == Succ(Edges(calls), n)
    ensures Records(calls, processed + {n}, liveFunc + {n.code},
                    liveFuncContext[n.code := At(liveFuncContext, n.code) + {n.context}],
                    invokes[n.code := At(invokes, n.code) + Codes(targets)],
                    invokesContext[n := targets])
  {
    CodesStep(processed, n);
    ContextTableStep(processed, liveFunc, liveFuncContext, n);
    CalleeTableStep(calls, processed, liveFunc, invokes, n);
    NodeTableStep(calls, processed, invokesContext, n);
  }

  ghost predicate ContextTable(processed: set<Node>, liveFunc: set<Code>, table: map<Code, set<Context>>) {
    table.Keys == liveFunc && forall c :: c in liveFunc ==> table[c] == ContextsOf(processed, c)
  }

  ghost predicate CalleeTable(calls: Calls, processed: set<Node>, liveFunc: set<Code>, table: map<Code, set<Code>>) {
    table.Keys == liveFunc && forall c :: c in liveFunc ==> table[c] == CalleesOf(calls, processed, c)
  }

  ghost predicate NodeTable(calls: Calls, processed: set<Node>, table: map<Node, set<Node>>) {
    table.Keys == processed && forall n :: n in processed ==> table[n] == Succ(Edges(calls), n)
  }

  lemma {:induction false} NodeTableStep(calls: Calls, processed: set<Node>, table: map<Node, set<Node>>, n: Node)
    requires NodeTable(calls, processed, table)
    ensures NodeTable(calls, processed + {n}, table[n := Succ(Edges(calls), n)])
  {
  }

  lemma {:induction false} ContextTableStep(
    processed: set<Node>, liveFunc: set<Code>, table: map<Code, set<Context>>, n: Node)
    requires liveFunc == Codes(processed) && ContextTable(processed, liveFunc, table)
    ensures ContextTable(processed + {n}, liveFunc + {n.code}, table[n.code := At(table, n.code) + {n.context}])
  {
    if n.code !in liveFunc {
      assert ContextsOf(processed, n.code) == {};
    }
    forall c | c in liveFunc + {n.code}
      ensures ContextsOf(processed + {n}, c) == ContextsOf(processed, c) + (if c == n.code then {n.context} else {})
    {
      ContextsStep(processed, n, c);
    }
  }

  lemma {:induction false} CalleeTableStep(
    calls: Calls, processed: set<Node>, liveFunc: set<Code>, table: map<Code, set<Code>>, n: Node)
    requires liveFunc == Codes(processed) && CalleeTable(calls, processed, liveFunc, table)
    ensures CalleeTable(calls, processed + {n}, liveFunc + {n.code},
                        table[n.code := At(table, n.code) + Codes(Succ(Edges(calls), n))])
  {
    if n.code !in liveFunc {
      assert CalleesOf(calls, processed, n.code) == {};
    }
    forall c | c in liveFunc + {n.code}
      ensures CalleesOf(calls, processed + {n}, c)
           == CalleesOf(calls, processed, c) + (if c == n.code then Codes(Succ(Edges(calls), n)) else {})
    {
      CalleesStep(calls, processed, n, c);
    }
  }

  lemma {:induction false} CodesStep(processed: set<Node>, n: Node)
    ensures Codes(processed + {n}) == Codes(processed) + {n.code}
  {
    assert n in processed + {n};
    forall c | c in Codes(processed)
      ensures c in Codes(processed + {n})
    {
      var m :| m in processed && m.code == c;
      assert m in processed + {n};
    }
  }

  lemma {:induction false} CodesUnion(a: set<Node>, b: set<Node>)
    ensures Codes(a + b) == Codes(a) + Codes(b)
  {
    forall c | c in Codes(a) + Codes(b)
      ensures c in Codes(a + b)
    {
      var m :| (m in a || m in b) && m.code == c;
      assert m in a + b;
    }
  }

  lemma {:induction false} ContextsStep(processed: set<Node>, n: Node, c: Code)
    ensures ContextsOf(processed + {n}, c) == ContextsOf(processed, c) + (if c == n.code then {n.context} else {})
  {
    assert n in processed + {n};
    forall x | x in ContextsOf(processed, c)
      ensures x in ContextsOf(processed + {n}, c)
    {
      var m :| m in processed && m.code == c && m.context == x;
      assert m in processed + {n};
    }
  }

  lemma {:induction false} CalleesStep(calls: Calls, processed: set<Node>, n: Node, c: Code)
    ensures CalleesOf(calls, processed + {n}, c)
         == CalleesOf(calls, processed, c) + (if c == n.code then Codes(Succ(Edges(calls), n)) else {})
  {
    var targets := Succ(Edges(calls), n);
    assert n in processed + {n};
    forall x | x in CalleesOf(calls, processed, c)
      ensures x in CalleesOf(calls, processed + {n}, c)
    {
      var m, t :| m in processed && m.code == c && t in Succ(Edges(calls), m) && t.code == x;
      assert m in processed + {n};
    }
    if c == n.code {
      forall x | x in Codes(targets)
        ensures x in CalleesOf(calls, processed + {n}, c)
      {
        var t :| t in targets && t.code == x;
      }
    }
  }

  // ------------------------------------------------------- depth-first search

  /** What a completed search from the root added: only nodes the root reaches,
      all with published facts and with their successors processed. */
  ghost predicate Explored(calls: Calls, before: set<Node>, after: set<Node>, root: Node) {
    && before <= after
    && forall x :: x in after - before ==>
       Reaches(Edges(calls), {root}, x) && HasFacts(calls, x) && Succ(Edges(calls), x) <= after
  }

  lemma {:induction false} ExploredMore(
    calls: Calls, before: set<Node>, mid: set<Node>, after: set<Node>, root: Node, child: Node)
    requires Explored(calls, before, mid, root) && Explored(calls, mid, after, child)
    requires child in Succ(Edges(calls), root)
    ensures Explored(calls, before, after, root)
  {
    forall x | x in after - mid
      ensures Reaches(Edges(calls), {root}, x)
    {
      FirstStep(Edges(calls), root, child, x);
    }
  }

  lemma {:induction false} MissingAbove(calls: Calls, root: Node, child: Node)
    requires child in Succ(Edges(calls), root) && MissingBelow(calls, child)
    ensures MissingBelow(calls, root)
  {
    var x :| Reaches(Edges(calls), {child}, x) && !HasFacts(calls, x);
    FirstStep(Edges(calls), root, child, x);
  }

  lemma {:induction false} RootExplored(calls: Calls, before: set<Node>, after: set<Node>, root: Node)
    requires Explored(calls, before + {root}, after, root) && HasFacts(calls, root) && Succ(Edges(calls), root) <= after
    ensures Explored(calls, before, after, root)
  {
    SeedReaches(Edges(calls), {root}, root);
  }

  lemma {:induction false} SameEntry<K, V>(m: map<K, set<V>>, k: K, v: set<V>)
    requires k in m && v == m[k]
    ensures m == m[k := v]
  {
  }

  lemma {:induction false} UnionEntry<K, V>(m: map<K, set<V>>, k: K, base: set<V>, added: set<V>, more: set<V>)
    ensures m[k := base + added][k := base + added + more] == m[k := base + (added + more)]
  {
    assert base + added + more == base + (added + more);
  }

  lemma {:induction false} NewEntry<K, V>(m: map<K, set<V>>, k: K, base: set<V>, added: set<V>, x: V)
    ensures m[k := base + added][k := base + added + {x}] == m[k := base + (added + {x})]
  {
    UnionEntry(m, k, base, added, {x});
  }

  /** One more target changes one entry in each of the two tables. */
  lemma {:induction false} NewTarget(
    invokes: map<Code, set<Code>>, invokesContext: map<Node, set<Node>>, node: Node,
    callees: set<Code>, nodes: set<Node>, added: set<Node>, child: Node)
    ensures invokes[node.code := callees + Codes(added)][node.code := callees + Codes(added) + {child.code}]
            == invokes[node.code := callees + Codes(added + {child})]
    ensures invokesContext[node := nodes + added][node := nodes + added + {child}]
            == invokesContext[node := nodes + (added + {child})]
  {
    CodesStep(added, child);
    NewEntry(invokes, node.code, callees, Codes(added), child.code);
    NewEntry(invokesContext, node, nodes, added, child);
  }

  lemma {:induction false} MoreTargets(
    invokes: map<Code, set<Code>>, invokesContext: map<Node, set<Node>>, node: Node,
    callees: set<Code>, listed: set<Node>, more: set<Node>)
    ensures invokes[node.code := callees + Codes(listed)][node.code := callees + Codes(listed) + Codes(more)]
            == invokes[node.code := callees + Codes(listed + more)]
    ensures invokesContext[node := listed][node := listed + more] == invokesContext[node := listed + more]
  {
    CodesUnion(listed, more);
    UnionEntry(invokes, node.code, callees, Codes(listed), Codes(more));
  }

  lemma {:induction false} ListedTarget(children: seq<Node>, before: set<Node>, added: set<Node>, child: Node)
    requires Elements(children) == before + added
    ensures Elements(children + [child]) == before + (added + {child})
  {
    ElementsPush(children, [child]);
    assert Elements([child]) == {child};
  }

  /** Some targets of a node have been recorded: one entry in each of the two
      tables has grown by them, and the list names them. */
  ghost predicate Added(
    invokes0: map<Code, set<Code>>, context0: map<Node, set<Node>>, node: Node, children0: seq<Node>,
    added: set<Node>, invokes: map<Code, set<Code>>, context: map<Node, set<Node>>, children: seq<Node>)
  {
    && node.code in invokes0 && node in context0 && node.code in invokes && node in context
    && Elements(children) == Elements(children0) + added
    && invokes == invokes0[node.code := invokes0[node.code] + Codes(added)]
    && context == context0[node := context0[node] + added]
  }

  lemma {:induction false} NothingAdded(
    invokes: map<Code, set<Code>>, context: map<Node, set<Node>>, node: Node, children: seq<Node>)
    requires node.code in invokes && node in context
    ensures Added(invokes, context, node, children, {}, invokes, context, children)
  {
    NoElements();
    SameEntry(invokes, node.code, invokes[node.code] + Codes({}));
    SameEntry(context, node, context[node] + {});
  }

  lemma {:induction false} OneAdded(
    invokes0: map<Code, set<Code>>, context0: map<Node, set<Node>>, node: Node, children0: seq<Node>,
    added: set<Node>, invokes: map<Code, set<Code>>, context: map<Node, set<Node>>, children: seq<Node>, child: Node)
    requires Added(invokes0, context0, node, children0, added, invokes, context, children)
    ensures Added(invokes0, context0, node, children0, added + {child},
                  invokes[node.code := invokes[node.code] + {child.code}],
                  context[node := context[node] + {child}], children + [child])
  {
    ListedTarget(children, Elements(children0), added, child);
    NewTarget(invokes0, context0, node, invokes0[node.code], context0[node], added, child);
  }

  lemma {:induction false} NoElements()
    ensures Elements<Node>([]) == {} && Codes({}) == {}
  {
  }

  class CallGraphFinder {
    const calls: Calls
    ghost const universe: set<Node>
    var processed: set<Node>
    var liveFunc: set<Code>
    var liveFuncContext: map<Code, set<Context>>
    var invokes: map<Code, set<Code>>
    var invokesContext: map<Node, set<Node>>

    constructor (calls: Calls, ghost universe: set<Node>)
      ensures this.calls == calls && this.universe == universe && processed == {} && Recorded()
    {
      this.calls, this.universe := calls, universe;
      processed, liveFunc, liveFuncContext, invokes, invokesContext := {}, {}, map[], map[], map[];
    }

    ghost predicate Recorded()
      reads this
    {
      Records(calls, processed, liveFunc, liveFuncContext, invokes, invokesContext)
    }

    ghost predicate Finite(root: Node) {
      root in universe && Closed(Edges(calls), universe)
    }

    /** Records the targets of one operation. */
    method AddTargets(node: Node, targets: set<Node>, children0: seq<Node>) returns (children: seq<Node>)
      requires node.code in invokes && node in invokesContext
      modifies this`invokes, this`invokesContext
      ensures Elements(children) == Elements(children0) + targets
      ensures invokes == old(invokes)[node.code := old(invokes)[node.code] + Codes(targets)]
      ensures invokesContext == old(invokesContext)[node := old(invokesContext)[node] + targets]
    {
      children := children0;
      var added := {};
      NothingAdded(invokes, invokesContext, node, children);
      while added != targets
        invariant added <= targets
        invariant Added(old(invokes), old(invokesContext), node, children0, added, invokes, invokesContext, children)
        decreases |targets - added|
      {
        var child :| child in targets && child !in added;
        OneFewer(targets, added, child);
        OneAdded(old(invokes), old(invokesContext), node, children0, added, invokes, invokesContext, children, child);
        invokes := invokes[node.code := invokes[node.code] + {child.code}];
        invokesContext := invokesContext[node := invokesContext[node] + {child}];
        children := children + [child];
        added := added + {child};
      }
    }

    /** Enters a new node into the tables and lists the targets of its operations. */
    method Children(node: Node) returns (ok: bool, children: seq<Node>)
      requires node in processed
      requires Records(calls, processed - {node}, liveFunc, liveFuncContext, invokes, invokesContext)
      modifies this`liveFunc, this`liveFuncContext, this`invokes, this`invokesContext
      ensures ok <==> HasFacts(calls, node)
      ensures ok ==> Elements(children) == Succ(Edges(calls), node) && Recorded()
    {
      liveFunc := liveFunc + {node.code};
      liveFuncContext := liveFuncContext[node.code := At(liveFuncContext, node.code) + {node.context}];
      ok, children := Targets(node);
      if ok {
        RecordsStep(calls, processed - {node}, old(liveFunc), old(liveFuncContext), old(invokes), old(invokesContext),
                    node, Elements(children));
        assert processed - {node} + {node} == processed;
      }
    }

    method Targets(node: Node) returns (ok: bool, children: seq<Node>)
      modifies this`invokes, this`invokesContext
      ensures ok <==> HasFacts(calls, node)
      ensures ok ==> Elements(children) == Succ(Edges(calls), node)
      ensures ok ==> invokes == old(invokes)[node.code := At(old(invokes), node.code) + Codes(Elements(children))]
      ensures ok ==> invokesContext == old(invokesContext)[node := Elements(children)]
    {
      children := [];
      ghost var callees := At(invokes, node.code);
      invokes := invokes[node.code := At(invokes, node.code)];
      invokesContext := invokesContext[node := {}];
      NoElements();
      assert callees + Codes(Elements(children)) == callees;
      if node !in calls {
        return false, [];
      }
      var ops := calls[node];
      for i := 0 to |ops|
        invariant forall j :: 0 <= j < i ==> ops[j].Some?
        invariant Elements(children) == TargetsUpTo(ops, i)
        invariant invokes == old(invokes)[node.code := callees + Codes(Elements(children))]
        invariant invokesContext == old(invokesContext)[node := Elements(children)]
      {
        if ops[i].None? {
          return false, [];
        }
        MoreTargets(old(invokes), old(invokesContext), node, callees, Elements(children), ops[i].value);
        children := AddTargets(node, ops[i].value, children);
      }
      ok := true;
    }

    /** `Finder.process`: the search fails exactly where a fact is missing, ends on
        a finite universe, and otherwise adds what the node reaches. */
    method Process(node: Node) returns (ok: bool)
      requires Recorded() && Finite(node)
      modifies this`processed, this`liveFunc, this`liveFuncContext, this`invokes, this`invokesContext
      ensures ok ==> Recorded() && node in processed && Explored(calls, old(processed), processed, node)
      ensures !ok ==> MissingBelow(calls, node)
      decreases |universe - processed|
    {
      if node in processed {
        return true;
      }
      ghost var before := processed;
      OneFewer(universe, processed, node);
      processed := processed + {node};
      assert processed - {node} == before;
      var children;
      ok, children := Children(node);
      if !ok {
        SeedReaches(Edges(calls), {node}, node);
        return;
      }
      for i := 0 to |children|
        invariant Recorded() && Explored(calls, before + {node}, processed, node)
        invariant Elements(children[..i]) <= processed
      {
        assert children[i] in Elements(children);
        ElementsTakeMore(children, i);
        ghost var mid := processed;
        Shrinks(universe, before + {node}, processed);
        ok := Process(children[i]);
        if !ok {
          MissingAbove(calls, node, children[i]);
          return;
        }
        ExploredMore(calls, before + {node}, mid, processed, node, children[i]);
      }
      ElementsAll(children);
      RootExplored(calls, before, processed, node);
    }
  }

  lemma {:induction false} Shrinks<T>(universe: set<T>, small: set<T>, large: set<T>)
    requires small <= large
    ensures |universe - large| <= |universe - small|
  {
    assert universe - small == (universe - large) + (universe * (large - small));
  }

  // ----------------------------------------------------------------- makeCGF

  /** The analysis facts and entry points of a program. */
  datatype Program = Program(calls: Calls, contexts: map<Code, set<Context>>, entries: seq<Node>) {
    predicate Published(e: Node) {
      e.code in contexts && e.context in contexts[e.code]
    }

    ghost predicate Live(x: Node) {
      Reaches(Edges(calls), Elements(entries), x)
    }

    /** Nothing that the entry points reach lacks a fact. */
    ghost predicate Complete() {
      (forall e :: e in entries ==> Published(e)) && (forall x :: Live(x) ==> HasFacts(calls, x))
    }
  }

  function EveryTarget(calls: Calls): set<Node> {
    set n, m | n in calls && HasFacts(calls, n) && m in TargetsUpTo(calls[n], |calls[n]|) :: m
  }

  /** A program whose search from the first n entries has succeeded. */
  ghost predicate Searched(p: Program, n: nat, processed: set<Node>)
    requires n <= |p.entries|
  {
    && (forall j :: 0 <= j < n ==> p.Published(p.entries[j]) && p.entries[j] in processed)
    && (forall x :: x in processed ==> p.Live(x) && HasFacts(p.calls, x) && Succ(Edges(p.calls), x) <= processed)
  }

  lemma {:induction false} SearchedMore(p: Program, n: nat, before: set<Node>, after: set<Node>)
    requires n < |p.entries| && Searched(p, n, before) && p.Published(p.entries[n])
    requires Explored(p.calls, before, after, p.entries[n]) && p.entries[n] in after
    ensures Searched(p, n + 1, after)
  {
    forall x | x in after - before
      ensures p.Live(x)
    {
      ReachMonotone(Edges(p.calls), {p.entries[n]}, Elements(p.entries), x);
    }
  }

  lemma {:induction false} MissingIsIncomplete(p: Program, e: Node)
    requires e in p.entries && (!p.Published(e) || MissingBelow(p.calls, e))
    ensures !p.Complete()
  {
    if p.Published(e) {
      var x :| Reaches(Edges(p.calls), {e}, x) && !HasFacts(p.calls, x);
      ReachMonotone(Edges(p.calls), {e}, Elements(p.entries), x);
      assert p.Live(x);
    }
  }

  lemma {:induction false} SearchedAll(p: Program, processed: set<Node>)
    requires Searched(p, |p.entries|, processed)
    ensures p.Complete() && forall x :: x in processed <==> p.Live(x)
  {
    forall x | p.Live(x)
      ensures x in processed
    {
      ReachStaysInClosed(Edges(p.calls), Elements(p.entries), processed, x);
    }
  }

  /** `makeCGF`: searches from every entry point and raises for the first that
      failed; what entries after a failure would add is discarded with it. It
      succeeds exactly on complete facts, and then has
      processed exactly what the entry points reach. */
  method MakeCGF(p: Program) returns (cgf: CallGraphFinder, failed: Option<Node>)
    ensures failed.None? <==> p.Complete()
    ensures failed.None? ==> cgf.calls == p.calls && cgf.Recorded() && forall x :: x in cgf.processed <==> p.Live(x)
    ensures failed.Some? ==> failed.value in p.entries
  {
    ghost var universe := Elements(p.entries) + EveryTarget(p.calls);
    cgf := new CallGraphFinder(p.calls, universe);
    failed := None;
    for i := 0 to |p.entries|
      invariant fresh(cgf) && cgf.calls == p.calls && cgf.universe == universe
      invariant failed.None? ==> cgf.Recorded() && Searched(p, i, cgf.processed)
      invariant failed.Some? ==> failed.value in p.entries && !p.Complete()
    {
      var e := p.entries[i];
      if failed.None? {
        var ok := p.Published(e);
        if ok {
          ghost var before := cgf.processed;
          ok := cgf.Process(e);
          if ok {
            SearchedMore(p, i, before, cgf.processed);
          }
        }
        if !ok {
          MissingIsIncomplete(p, e);
          failed := Some(e);
        }
      }
    }
    if failed.None? {
      SearchedAll(p, cgf.processed);
    }
  }

  /** `findLiveContexts`: each live code with exactly the contexts in which the
      entry points reach it. */
  method FindLiveContexts(p: Program) returns (live: Option<map<Code, set<Context>>>)
    ensures live.Some? <==> p.Complete()
    ensures live.Some? ==> forall c, x :: (c in live.value && x in live.value[c]) <==> p.Live(Node(c, x))
  {
    var cgf, failed := MakeCGF(p);
    if failed.Some? {
      return None;
    }
    live := Some(cgf.liveFuncContext);
    forall c, x | p.Live(Node(c, x))
      ensures c in live.value && x in live.value[c]
    {
      assert Node(c, x) in cgf.processed;
      assert c in Codes(cgf.processed) && x in ContextsOf(cgf.processed, c);
    }
  }

  /** Some context of code c is live. */
  ghost predicate LiveCode(p: Program, c: Code) {
    exists x :: p.Live(Node(c, x))
  }

  /** Some live context of code c may call code d. */
  ghost predicate LiveCall(p: Program, c: Code, d: Code) {
    exists x, m :: p.Live(Node(c, x)) && m in Succ(Edges(p.calls), Node(c, x)) && m.code == d
  }

  lemma {:induction false} ProjectionsAreLive(p: Program, processed: set<Node>, c: Code)
    requires forall x :: x in processed <==> p.Live(x)
    ensures c in Codes(processed) <==> LiveCode(p, c)
    ensures forall d :: d in CalleesOf(p.calls, processed, c) <==> LiveCall(p, c, d)
  {
    if c in Codes(processed) {
      var n :| n in processed && n.code == c;
      assert p.Live(Node(c, n.context));
    }
    if LiveCode(p, c) {
      var x :| p.Live(Node(c, x));
      assert Node(c, x) in processed;
    }
    forall d | LiveCall(p, c, d)
      ensures d in CalleesOf(p.calls, processed, c)
    {
      var x, m :| p.Live(Node(c, x)) && m in Succ(Edges(p.calls), Node(c, x)) && m.code == d;
      assert Node(c, x) in processed;
    }
    forall d | d in CalleesOf(p.calls, processed, c)
      ensures LiveCall(p, c, d)
    {
      var n, m :| n in processed && n.code == c && m in Succ(Edges(p.calls), n) && m.code == d;
      assert p.Live(Node(c, n.context));
    }
  }

  function WithHead(invokes: map<Code, set<Code>>, entries: set<Code>): (graph: map<Option<Code>, set<Code>>)
    ensures None in graph && graph[None] == entries
    ensures forall c :: Some(c) in graph <==> c in invokes
    ensures forall c :: c in invokes ==> graph[Some(c)] == invokes[c]
  {
    (map k: Option<Code> | k in (set c | c in invokes :: Some(c)) :: invokes[k.value])[None := entries]
  }

  /** `findLiveCode`: the live codes, and the code call graph headed by the entries. */
  method FindLiveCode(p: Program) returns (complete: bool, live: set<Code>, graph: map<Option<Code>, set<Code>>)
    ensures complete <==> p.Complete()
    ensures complete ==> forall c: Code :: c in live <==> LiveCode(p, c)
    ensures complete ==> None in graph && graph[None] == Codes(Elements(p.entries))
    ensures complete ==> forall c: Code :: Some(c) in graph <==> LiveCode(p, c)
    ensures complete ==> forall c: Code, d: Code :: Some(c) in graph ==> (d in graph[Some(c)] <==> LiveCall(p, c, d))
  {
    var cgf, failed := MakeCGF(p);
    if failed.Some? {
      return false, {}, map[];
    }
    complete, live, graph := true, cgf.liveFunc, WithHead(cgf.invokes, Codes(Elements(p.entries)));
    forall c: Code
      ensures c in Codes(cgf.processed) <==> LiveCode(p, c)
      ensures forall d :: d in CalleesOf(p.calls, cgf.processed, c) <==> LiveCall(p, c, d)
    {
      ProjectionsAreLive(p, cgf.processed, c);
    }
  }

  // ------------------------------------------------------ direct-call worklist

  datatype Operation = DirectCall(target: Option<Code>) | Other

  function TargetOf(op: Operation): set<Code> {
    if op.DirectCall? && op.target.Some? then {op.target.value} else {}
  }

  function DirectTargets(ops: seq<Operation>, n: nat): set<Code>
    requires n <= |ops|
  {
    if n == 0 then {} else DirectTargets(ops, n - 1) + TargetOf(ops[n - 1])
  }

  function DirectEdges(operations: map<Code, seq<Operation>>): map<Code, set<Code>> {
    map c | c in operations :: DirectTargets(operations[c], |operations[c]|)
  }

  /** One code calls another directly: one of its operations is a direct call of it. */
  lemma {:induction false} DirectEdgesMean(operations: map<Code, seq<Operation>>, c: Code, d: Code)
    ensures d in Succ(DirectEdges(operations), c) <==> c in operations && DirectCall(Some(d)) in operations[c]
  {
    if c in operations {
      DirectTargetsMean(operations[c], |operations[c]|, d);
      assert operations[c][..|operations[c]|] == operations[c];
    }
  }

  lemma {:induction false} DirectTargetsMean(ops: seq<Operation>, n: nat, d: Code)
    requires n <= |ops|
    ensures d in DirectTargets(ops, n) <==> DirectCall(Some(d)) in ops[..n]
  {
    if n > 0 {
      DirectTargetsMean(ops, n - 1, d);
      assert ops[..n] == ops[..n - 1] + [ops[n - 1]];
    }
  }

  function EveryDirectTarget(operations: map<Code, seq<Operation>>): set<Code> {
    set c, d | c in operations && d in DirectTargets(operations[c], |operations[c]|) :: d
  }

  lemma {:induction false} TargetsInUniverse(operations: map<Code, seq<Operation>>, c: Code)
    ensures Succ(DirectEdges(operations), c) <= EveryDirectTarget(operations)
  {
  }

  /** Adds the targets of one code: new ones are reached and pending. */
  method FollowOperations(
    ops: seq<Operation>, reached0: set<Code>, pending0: seq<Code>) returns (reached: set<Code>, pending: seq<Code>)
    ensures reached == reached0 + DirectTargets(ops, |ops|)
    ensures Elements(pending) == Elements(pending0) + (DirectTargets(ops, |ops|) - reached0)
    ensures reached == reached0 ==> pending == pending0
  {
    reached, pending := reached0, pending0;
    for i := 0 to |ops|
      invariant reached == reached0 + DirectTargets(ops, i)
      invariant Elements(pending) == Elements(pending0) + (DirectTargets(ops, i) - reached0)
      invariant reached == reached0 ==> pending == pending0
    {
      if ops[i].DirectCall? && ops[i].target.Some? && ops[i].target.value !in reached {
        var target := ops[i].target.value;
        ElementsPush(pending, [target]);
        assert Elements([target]) == {target};
        reached := reached + {target};
        pending := pending + [target];
      }
    }
  }

  method Expand(
    operations: map<Code, seq<Operation>>, code: Code, reached0: set<Code>, pending0: seq<Code>)
    returns (reached: set<Code>, pending: seq<Code>)
    ensures reached == reached0 + Succ(DirectEdges(operations), code)
    ensures Elements(pending) == Elements(pending0) + (Succ(DirectEdges(operations), code) - reached0)
    ensures reached == reached0 ==> pending == pending0
  {
    if code !in operations {
      return reached0, pending0;
    }
    reached, pending := FollowOperations(operations[code], reached0, pending0);
  }

  /** One round of the worklist, on the sets it holds. */
  lemma {:induction false} WorklistStep(
    edges: map<Code, set<Code>>, seeds: set<Code>, expanded: set<Code>, held: set<Code>, rest: set<Code>, code: Code,
    reached: set<Code>)
    requires Draining(edges, seeds, expanded, held) && reached == expanded + held
    requires code in held && held - {code} <= rest <= held
    ensures var pending := rest + (Succ(edges, code) - reached);
            && Draining(edges, seeds, expanded + {code}, pending)
            && reached + Succ(edges, code) == expanded + {code} + pending
  {
    DrainingStep(edges, seeds, expanded, held, code, rest);
    assert rest + (Succ(edges, code) - (expanded + {code})) == rest + (Succ(edges, code) - reached);
  }

  lemma {:induction false} GrowsWithin<T>(universe: set<T>, small: set<T>, large: set<T>)
    requires small < large <= universe
    ensures |universe - large| < |universe - small|
  {
    var x :| x in large && x !in small;
    OneFewer(universe, small, x);
    Shrinks(universe, small + {x}, large);
  }

  /** Exactly what the seeds reach through direct calls. */
  ghost predicate ReachedExactly(operations: map<Code, seq<Operation>>, seeds: set<Code>, reached: set<Code>) {
    forall x :: x in reached <==> Reaches(DirectEdges(operations), seeds, x)
  }

  ghost function Universe(operations: map<Code, seq<Operation>>, seeds: set<Code>): set<Code> {
    seeds + EveryDirectTarget(operations)
  }

  ghost predicate Working(
    operations: map<Code, seq<Operation>>, seeds: set<Code>, expanded: set<Code>, reached: set<Code>,
    pending: seq<Code>)
  {
    && reached == expanded + Elements(pending) && reached <= Universe(operations, seeds)
    && Draining(DirectEdges(operations), seeds, expanded, Elements(pending))
  }

  lemma {:induction false} WorklistStarts(operations: map<Code, seq<Operation>>, seeds: seq<Code>)
    ensures Working(operations, Elements(seeds), {}, Elements(seeds), seeds)
  {
    DrainingStarts(DirectEdges(operations), Elements(seeds));
  }

  lemma {:induction false} WorklistEnds(
    operations: map<Code, seq<Operation>>, seeds: set<Code>, expanded: set<Code>, reached: set<Code>,
    pending: seq<Code>)
    requires pending == [] && Working(operations, seeds, expanded, reached, pending)
    ensures ReachedExactly(operations, seeds, reached)
  {
    assert Elements(pending) == {} && expanded + {} == expanded;
    Drained(DirectEdges(operations), seeds, expanded);
  }

  /** One turn of the loop. */
  method ExpandLast(
    operations: map<Code, seq<Operation>>, ghost seeds: set<Code>, ghost expanded0: set<Code>, reached0: set<Code>,
    pending0: seq<Code>)
    returns (reached: set<Code>, pending: seq<Code>, ghost expanded: set<Code>)
    requires pending0 != [] && Working(operations, seeds, expanded0, reached0, pending0)
    ensures Working(operations, seeds, expanded, reached, pending)
    ensures || |Universe(operations, seeds) - reached| < |Universe(operations, seeds) - reached0|
            || (reached == reached0 && |pending| < |pending0|)
  {
    var code, rest := pending0[|pending0| - 1], pending0[..|pending0| - 1];
    ElementsPop(pending0);
    reached, pending := Expand(operations, code, reached0, rest);
    expanded := expanded0 + {code};
    StillWorking(operations, seeds, expanded0, reached0, pending0, rest, code, reached, pending);
    if reached != reached0 {
      GrowsWithin(Universe(operations, seeds), reached0, reached);
    }
  }

  lemma {:induction false} StillWorking(
    operations: map<Code, seq<Operation>>, seeds: set<Code>, expanded: set<Code>, reached: set<Code>,
    pending: seq<Code>,
    rest: seq<Code>, code: Code, reached': set<Code>, pending': seq<Code>)
    requires Working(operations, seeds, expanded, reached, pending)
    requires code in Elements(pending) && Elements(pending) - {code} <= Elements(rest) <= Elements(pending)
    requires reached' == reached + Succ(DirectEdges(operations), code)
    requires Elements(pending') == Elements(rest) + (Succ(DirectEdges(operations), code) - reached)
    ensures Working(operations, seeds, expanded + {code}, reached', pending')
  {
    WorklistStep(DirectEdges(operations), seeds, expanded, Elements(pending), Elements(rest), code, reached);
    TargetsInUniverse(operations, code);
  }

  /** `_direct_callgraph_target_codes`: exactly the codes that direct calls reach
      from the seeds. */
  method DirectCallTargets(operations: map<Code, seq<Operation>>, seeds: seq<Code>) returns (reached: set<Code>)
    ensures ReachedExactly(operations, Elements(seeds), reached)
  {
    ghost var expanded: set<Code> := {};
    reached := Elements(seeds);
    var pending := seeds;
    WorklistStarts(operations, seeds);
    while pending != []
      invariant Working(operations, Elements(seeds), expanded, reached, pending)
      decreases |Universe(operations, Elements(seeds)) - reached|, |pending|
    {
      reached, pending, expanded := ExpandLast(operations, Elements(seeds), expanded, reached, pending);
    }
    WorklistEnds(operations, Elements(seeds), expanded, reached, pending);
  }

  /** The worklist's result is the least set with the seeds and closed under direct calls. */
  lemma {:induction false} DirectCallTargetsAreLeast(
    operations: map<Code, seq<Operation>>, seeds: set<Code>, reached: set<Code>)
    requires ReachedExactly(operations, seeds, reached)
    ensures seeds <= reached && Closed(DirectEdges(operations), reached)
    ensures forall s :: seeds <= s && Closed(DirectEdges(operations), s) ==> reached <= s
  {
    forall x | x in seeds
      ensures x in reached
    {
      SeedReaches(DirectEdges(operations), seeds, x);
    }
    forall x | x in reached
      ensures Succ(DirectEdges(operations), x) <= reached
    {
      SuccessorsReach(DirectEdges(operations), seeds, x);
    }
    forall s, x | seeds <= s && Closed(DirectEdges(operations), s) && x in reached
      ensures x in s
    {
      ReachStaysInClosed(DirectEdges(operations), seeds, s, x);
    }
  }
}
