/** Following import aliases to the symbol they finally name
    (`WorkspaceResolver._canonical` and `import_target`, src/pyflow/lsp/resolution.py).
    Dotted names are sequences of their parts; overloads and framework models
    are not part of this model. */
module Resolver {
  import opened Wrappers
  import R = Reachability

  type Path = string
  type Name = seq<string>

  datatype SymbolId = SymbolId(home: Name, qualname: Name, file: Path, line: nat, character: nat, isModule: bool)

  datatype Tables = Tables(symbols: map<Name, SymbolId>, modules: map<Name, SymbolId>, imports: map<SymbolId, Name>)

  /** Every non-empty prefix of a module name is a namespace. */
  predicate IsNamespace(t: Tables, n: Name) {
    n != [] && exists m :: m in t.modules && n <= m
  }

  lemma {:induction false} NamespacesAre(t: Tables, n: Name)
    ensures IsNamespace(t, n) <==> exists m, k: nat :: m in t.modules && 0 < k <= |m| && m[..k] == n
  {
    if IsNamespace(t, n) {
      var m :| m in t.modules && n <= m;
      assert m[..|n|] == n;
    }
  }

  predicate IsPackageFile(file: Path) {
    var suffix := "/__init__.py";
    |file| >= |suffix| && file[|file| - |suffix|..] == suffix
  }

  /** The longest package prefix, at most `end` parts long, under which `head` is a namespace. */
  function EnclosingPrefix(t: Tables, parts: Name, head: string, end: nat): Option<Name>
    requires end <= |parts|
  {
    if end == 0 then None
    else if IsNamespace(t, parts[..end] + [head]) then Some(parts[..end])
    else EnclosingPrefix(t, parts, head, end - 1)
  }

  /** The dotted target of an import, made absolute when it is local to a script's package. */
  function ImportTarget(t: Tables, id: SymbolId): (r: Option<Name>)
    ensures r.Some? ==> id in t.imports && r.value != []
  {
    if id !in t.imports || t.imports[id] == [] then None
    else
      var target := t.imports[id];
      if IsNamespace(t, target[..1]) then Some(target)
      else
        var parts := if IsPackageFile(id.file) || id.home == [] then id.home else id.home[..|id.home| - 1];
        match EnclosingPrefix(t, parts, target[0], |parts|)
        case Some(prefix) => Some(prefix + target)
        case None => Some(target)
  }

  /** One step along an alias chain. */
  function Next(t: Tables, id: SymbolId): (r: Option<SymbolId>)
    ensures r.Some? ==> id in t.imports
  {
    match ImportTarget(t, id)
    case None => None
    case Some(target) =>
      if target in t.symbols then Some(t.symbols[target])
      else if target in t.modules then Some(t.modules[target])
      else None
  }

  /** The package that an import stands in: the module itself for a package's own
      file, and else what encloses the module. */
  ghost predicate StandsIn(id: SymbolId, package: Name) {
    if exists directory: string :: id.file == directory + "/__init__.py" then package == id.home
    else if id.home == [] then package == []
    else exists leaf: string :: id.home == package + [leaf]
  }

  /** What an import names. A name that starts with a visible namespace stands for
      itself; otherwise it is taken relative to the innermost enclosing package
      under which it starts with a namespace, if there is one. */
  lemma {:induction false} ImportTargetMeans(t: Tables, id: SymbolId, package: Name)
    requires id in t.imports && t.imports[id] != [] && StandsIn(id, package)
    ensures var target := t.imports[id];
            var r := ImportTarget(t, id);
            && (IsNamespace(t, [target[0]]) ==> r == Some(target))
            && (!IsNamespace(t, [target[0]]) ==>
                  || (r == Some(target) && NoneEncloses(t, package, target[0], 0))
                  || exists k: nat :: Encloses(t, package, target[0], k) && r == Some(package[..k] + target))
  {
    var target := t.imports[id];
    assert target[..1] == [target[0]];
    PackageOf(id, package);
    if !IsNamespace(t, [target[0]]) {
      var prefix := EnclosingPrefix(t, package, target[0], |package|);
      EnclosingPrefixMeans(t, package, target[0], |package|);
      if prefix.Some? {
        var k: nat :| Encloses(t, package, target[0], k) && prefix.value == package[..k];
        assert ImportTarget(t, id) == Some(package[..k] + target);
      }
    }
  }

  lemma {:induction false} PackageOf(id: SymbolId, package: Name)
    requires StandsIn(id, package)
    ensures package == if IsPackageFile(id.file) || id.home == [] then id.home else id.home[..|id.home| - 1]
  {
    var suffix := "/__init__.py";
    if IsPackageFile(id.file) {
      assert id.file == id.file[..|id.file| - |suffix|] + suffix;
    } else if id.home != [] {
      var leaf :| id.home == package + [leaf];
    }
  }

  ghost predicate NoneEncloses(t: Tables, package: Name, head: string, from: nat) {
    forall k: nat :: from < k <= |package| ==> !IsNamespace(t, package[..k] + [head])
  }

  /** The innermost package, given by its length, under which the name is a namespace. */
  ghost predicate Encloses(t: Tables, package: Name, head: string, k: nat) {
    0 < k <= |package| && IsNamespace(t, package[..k] + [head]) && NoneEncloses(t, package, head, k)
  }

  lemma {:induction false} EnclosingPrefixMeans(t: Tables, package: Name, head: string, end: nat)
    requires end <= |package| && NoneEncloses(t, package, head, end)
    ensures var r := EnclosingPrefix(t, package, head, end);
            if r.Some? then exists k: nat :: Encloses(t, package, head, k) && r.value == package[..k]
            else NoneEncloses(t, package, head, 0)
  {
    if end > 0 {
      if IsNamespace(t, package[..end] + [head]) {
        assert Encloses(t, package, head, end);
      } else {
        EnclosingPrefixMeans(t, package, head, end - 1);
      }
    }
  }

  /** The next symbol of a chain: a declared one before a module of the same name. */
  lemma {:induction false} NextMeans(t: Tables, id: SymbolId, target: Name)
    requires ImportTarget(t, id) == Some(target)
    ensures target in t.symbols ==> Next(t, id) == Some(t.symbols[target])
    ensures target !in t.symbols && target in t.modules ==> Next(t, id) == Some(t.modules[target])
    ensures target !in t.symbols && target !in t.modules ==> Next(t, id) == None
  {
  }

  /** `_canonical`: follow the chain until it ends or meets a symbol again. */
  function Canonical(t: Tables, id: SymbolId, seen: set<SymbolId> := {}): SymbolId
    decreases |t.imports.Keys - seen|
  {
    if id in seen then id
    else
      match Next(t, id)
      case None => id
      case Some(next) =>
        R.OneFewer(t.imports.Keys, seen, id);
        Canonical(t, next, seen + {id})
  }

  // --------------------------------------------------- what it returns

  /** The n-th symbol of the chain that starts at `id`. */
  ghost function Steps(t: Tables, id: SymbolId, n: nat): Option<SymbolId> {
    if n == 0 then Some(id)
    else
      match Steps(t, id, n - 1)
      case None => None
      case Some(previous) => Next(t, previous)
  }

  ghost predicate OnCycle(t: Tables, id: SymbolId) {
    exists n: nat :: n > 0 && Steps(t, id, n) == Some(id)
  }

  /** A symbol at which following aliases has nothing left to gain. */
  ghost predicate Settled(t: Tables, id: SymbolId) {
    Next(t, id).None? || OnCycle(t, id)
  }

  /** The chain settles first at step n, on symbol r. */
  ghost predicate FirstSettled(t: Tables, id: SymbolId, n: nat, r: SymbolId) {
    && Steps(t, id, n) == Some(r) && Settled(t, r)
    && forall m: nat :: m < n ==> Steps(t, id, m).Some? && !Settled(t, Steps(t, id, m).value)
  }

  ghost predicate Distinct(trail: seq<SymbolId>) {
    forall i, j :: 0 <= i < j < |trail| ==> trail[i] != trail[j]
  }

  /** The symbols passed so far, in order, ending just before `id`. */
  ghost predicate IsTrail(t: Tables, start: SymbolId, trail: seq<SymbolId>, id: SymbolId) {
    && Distinct(trail)
    && (forall i {:trigger trail[i]} :: 0 <= i < |trail| ==> Steps(t, start, i) == Some(trail[i]))
    && Steps(t, start, |trail|) == Some(id)
  }

  lemma {:induction false} OrbitStays(t: Tables, x: SymbolId, closed: set<SymbolId>, n: nat)
    requires n > 0
    requires Next(t, x).Some? ==> Next(t, x).value in closed
    requires forall y :: y in closed && Next(t, y).Some? ==> Next(t, y).value in closed
    ensures Steps(t, x, n).Some? ==> Steps(t, x, n).value in closed
  {
    if n > 1 {
      OrbitStays(t, x, closed, n - 1);
    } else {
      assert Steps(t, x, 0) == Some(x);
    }
  }

  lemma {:induction false} TrailNext(t: Tables, start: SymbolId, trail: seq<SymbolId>, id: SymbolId, i: nat)
    requires IsTrail(t, start, trail, id) && i < |trail|
    ensures Next(t, trail[i]) == Some(if i + 1 < |trail| then trail[i + 1] else id)
  {
    assert Steps(t, start, i + 1) == Next(t, trail[i]);
  }

  /** Nothing strictly before the end of the walk is settled. */
  lemma {:induction false} TrailUnsettled(t: Tables, start: SymbolId, trail: seq<SymbolId>, id: SymbolId, k: nat)
    requires IsTrail(t, start, trail, id) && k < |trail|
    requires id !in trail[..k + 1]
    requires id in trail || Next(t, id).None?
    ensures !Settled(t, trail[k])
  {
    TrailNext(t, start, trail, id, k);
    var closed := R.Elements(trail[k + 1..]) + {id};
    forall y | y in closed && Next(t, y).Some?
      ensures Next(t, y).value in closed
    {
      if y in trail {
        var i :| 0 <= i < |trail| && trail[i] == y;
        TrailNext(t, start, trail, id, i);
        if y in trail[k + 1..] {
          var j :| k + 1 <= j < |trail| && trail[j] == y;
        }
      }
    }
    forall n: nat | n > 0
      ensures Steps(t, trail[k], n) != Some(trail[k])
    {
      OrbitStays(t, trail[k], closed, n);
    }
  }

  lemma {:induction false} TrailEnds(t: Tables, start: SymbolId, trail: seq<SymbolId>, id: SymbolId, n: nat)
    requires IsTrail(t, start, trail, id)
    requires n <= |trail| && if n < |trail| then trail[n] == id else Next(t, id).None?
    ensures Steps(t, start, n) == Some(id) && Settled(t, id)
  {
    if n < |trail| {
      StepsAdd(t, start, n, |trail| - n);
      assert Steps(t, id, |trail| - n) == Some(id);
    }
  }

  lemma {:induction false} TrailSettles(t: Tables, start: SymbolId, trail: seq<SymbolId>, id: SymbolId, n: nat)
    requires IsTrail(t, start, trail, id)
    requires n <= |trail| && id !in trail[..n]
    requires if n < |trail| then trail[n] == id else Next(t, id).None?
    ensures FirstSettled(t, start, n, id)
  {
    TrailEnds(t, start, trail, id, n);
    forall m: nat | m < n
      ensures Steps(t, start, m).Some? && !Settled(t, Steps(t, start, m).value)
    {
      assert Steps(t, start, m) == Some(trail[m]);
      TrailUnsettled(t, start, trail, id, m);
    }
  }

  lemma {:induction false} StepsNext(t: Tables, start: SymbolId, n: nat, id: SymbolId)
    requires Steps(t, start, n) == Some(id)
    ensures Steps(t, start, n + 1) == Next(t, id)
  {
  }

  lemma {:induction false} TrailGrows(t: Tables, start: SymbolId, trail: seq<SymbolId>, id: SymbolId, next: SymbolId)
    requires IsTrail(t, start, trail, id)
    requires id !in trail && Next(t, id) == Some(next)
    ensures IsTrail(t, start, trail + [id], next)
  {
    var longer := trail + [id];
    StepsNext(t, start, |trail|, id);
    DistinctGrows(trail, id);
    forall i | 0 <= i < |longer|
      ensures Steps(t, start, i) == Some(longer[i])
    {
      if i < |trail| {
        assert longer[i] == trail[i];
      }
    }
  }

  lemma {:induction false} DistinctGrows(trail: seq<SymbolId>, id: SymbolId)
    requires Distinct(trail) && id !in trail
    ensures Distinct(trail + [id])
  {
  }

  lemma {:induction false} SeenGrows(universe: set<SymbolId>, trail: seq<SymbolId>, id: SymbolId)
    requires id in universe && id !in trail
    ensures R.Elements(trail + [id]) == R.Elements(trail) + {id}
    ensures |universe - R.Elements(trail + [id])| < |universe - R.Elements(trail)|
  {
    R.ElementsPush(trail, [id]);
    assert R.Elements([id]) == {id};
    R.OneFewer(universe, R.Elements(trail), id);
  }

  lemma {:induction false} CanonicalOfTrail(t: Tables, start: SymbolId, trail: seq<SymbolId>, id: SymbolId)
    returns (n: nat)
    requires IsTrail(t, start, trail, id)
    ensures FirstSettled(t, start, n, Canonical(t, id, R.Elements(trail)))
    decreases |t.imports.Keys - R.Elements(trail)|
  {
    var seen := R.Elements(trail);
    if id in seen {
      n :| 0 <= n < |trail| && trail[n] == id;
      TrailSettles(t, start, trail, id, n);
    } else if Next(t, id).None? {
      n := |trail|;
      TrailSettles(t, start, trail, id, n);
    } else {
      TrailGrows(t, start, trail, id, Next(t, id).value);
      SeenGrows(t.imports.Keys, trail, id);
      n := CanonicalOfTrail(t, start, trail + [id], Next(t, id).value);
    }
  }

  lemma {:induction false} StepsAdd(t: Tables, id: SymbolId, n: nat, m: nat)
    requires Steps(t, id, n).Some?
    ensures Steps(t, id, n + m) == Steps(t, Steps(t, id, n).value, m)
  {
    if m == 0 {
      assert Steps(t, Steps(t, id, n).value, 0) == Steps(t, id, n);
    } else {
      StepsAdd(t, id, n, m - 1);
      assert Steps(t, id, n + m - 1) == Steps(t, Steps(t, id, n).value, m - 1);
    }
  }

  /** For every finite alias graph, cyclic re-exports included, canonicalisation
      stops at the first symbol of the chain that has no further target or lies
      on a cycle. */
  lemma {:induction false} CanonicalSettlesFirst(t: Tables, id: SymbolId)
    ensures exists n: nat :: FirstSettled(t, id, n, Canonical(t, id))
  {
    assert R.Elements<SymbolId>([]) == {};
    var n := CanonicalOfTrail(t, id, [], id);
  }

  /** That symbol is the only one: two first settled symbols are the same. */
  lemma {:induction false} FirstSettledUnique(t: Tables, id: SymbolId, n: nat, r: SymbolId, m: nat, s: SymbolId)
    requires FirstSettled(t, id, n, r) && FirstSettled(t, id, m, s)
    ensures n == m && r == s
  {
    var atN, atM := Steps(t, id, n), Steps(t, id, m);
  }

  lemma {:induction false} CanonicalIdempotent(t: Tables, id: SymbolId)
    ensures Canonical(t, Canonical(t, id)) == Canonical(t, id)
  {
    var r := Canonical(t, id);
    CanonicalSettlesFirst(t, id);
    var n: nat :| FirstSettled(t, id, n, r);
    assert FirstSettled(t, r, 0, r);
    CanonicalSettlesFirst(t, r);
    var m: nat :| FirstSettled(t, r, m, Canonical(t, r));
    FirstSettledUnique(t, r, 0, r, m, Canonical(t, r));
  }

  // ------------------------------------------------------------ alias map

  /** `_resolve_import_aliases`: the imports that canonicalise to something else. */
  function Aliases(t: Tables): map<SymbolId, SymbolId> {
    map id | id in t.imports && Canonical(t, id) != id :: Canonical(t, id)
  }

  function Resolved(aliases: map<SymbolId, SymbolId>, id: SymbolId): SymbolId {
    if id in aliases then aliases[id] else id
  }

  /** One lookup in the alias map is canonicalisation, for every symbol, and a
      second lookup changes nothing. */
  lemma {:induction false} OneAliasPassSuffices(t: Tables, id: SymbolId)
    ensures Resolved(Aliases(t), id) == Canonical(t, id)
    ensures Resolved(Aliases(t), Resolved(Aliases(t), id)) == Resolved(Aliases(t), id)
  {
    CanonicalIdempotent(t, id);
  }
}
