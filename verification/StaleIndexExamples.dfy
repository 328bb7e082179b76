/** Edits after which the incremental index is not the index built from scratch:
    why `IncrementalIndex` asks for names owned by their longest module prefix
    and for a fixed path-to-module map. */
module StaleIndexExamples {
  import opened Wrappers
  import opened Resolver
  import opened SourceIndex
  import opened IncrementalIndex
  import R = Reachability

  const APP := "app.py"
  const APP_X := SymbolId(["app"], ["app", "x"], APP, 0, 0, false)

  function Empty(home: Option<Name>): Shard {
    Shard(Interface(home, {}, map[], map[], false, home.None?), [], map[], [])
  }

  function Declaring(home: Name, id: SymbolId, name: Name): Shard {
    Shard(Interface(Some(home), {id}, map[name := id], map[], false, false), [], map[], [])
  }

  /** `from <target> import x` and one use of `x`. */
  function Importing(target: Name): Shard {
    Shard(Interface(Some(["app"]), {APP_X}, map[["app", "x"] := APP_X], map[APP_X := target], false, false),
          [Reference(0, Some(APP_X))], map[], [])
  }

  lemma {:induction false} DifferentFiles()
    ensures APP != PKG && APP != SUB && PKG != SUB && APP != B
  {
    assert APP[0] != PKG[0] && APP[0] != SUB[0] && PKG[4] != SUB[4] && APP[0] != B[0];
  }

  lemma {:induction false} NoDependents(ix: Index, file: Path)
    requires Shaped(ix)
    requires forall p :: p in ix.resolved ==> file !in ix.resolved[p].dependencies
    ensures R.Succ(ix.dependents, file) == {}
  {
    assert forall f :: f in R.Succ(ix.dependents, file) ==> f in ix.resolved && file in ix.resolved[f].dependencies;
  }

  lemma {:induction false} OnlyItselfReached(edges: map<Path, set<Path>>, seeds: set<Path>, file: Path, p: Path)
    requires R.Succ(edges, file) == {} && seeds <= {file} && R.Reaches(edges, seeds, p)
    ensures p == file
  {
    R.ReachStaysInClosed(edges, seeds, {file}, p);
  }

  lemma {:induction false} OnlyTouchedAffected(prev: Index, after: Shards, file: Path)
    requires Shaped(prev) && after.Keys == prev.shards.Keys && file in after
    requires forall p :: p in prev.resolved ==> file !in prev.resolved[p].dependencies
    requires forall p :: p in prev.shards ==> !HasFixtures(prev.shards, after, p)
    ensures Affected(prev, after, {file}, {}) == {file}
  {
    NoDependents(prev, file);
    var public := Public(prev.shards, after, {file});
    forall p | R.Reaches(prev.dependents, public, p)
      ensures p == file
    {
      OnlyItselfReached(prev.dependents, public, file, p);
    }
  }

  lemma {:induction false} ReusedAt(prev: Index, after: Shards, touched: set<Path>, path: Path)
    requires Shaped(prev) && after.Keys == prev.shards.Keys && path in after
    requires path !in Affected(prev, after, touched, {})
    ensures Reused(prev, prev.order, after, touched, {})[path] == prev.resolved[path]
  {
  }

  lemma {:induction false} AnewAt(order: seq<Path>, after: Shards, path: Path)
    requires forall p :: p in order ==> p in after
    requires path in after
    ensures ResolveAll(order, after)[path] == Resolve(WorkspaceOf(order, after), path, after[path])
  {
  }

  /** An edit of a file on which nothing is recorded to depend leaves the
      application file its old resolution, right or wrong. */
  lemma {:induction false} StaleWhenWrong(prev: Index, after: Shards, file: Path)
    requires Shaped(prev) && after.Keys == prev.shards.Keys
    requires APP in after && file in after && file != APP
    requires forall p :: p in prev.resolved ==> file !in prev.resolved[p].dependencies
    requires forall p :: p in prev.shards ==> !HasFixtures(prev.shards, after, p)
    requires Resolve(WorkspaceOf(prev.order, after), APP, after[APP]).references != prev.resolved[APP].references
    ensures Reused(prev, prev.order, after, {file}, {}) != ResolveAll(prev.order, after)
  {
    OnlyTouchedAffected(prev, after, file);
    ReusedAt(prev, after, {file}, APP);
    AnewAt(prev.order, after, APP);
  }

  lemma {:induction false} MergedAppend(order: seq<Path>, p: Path, shards: Shards)
    requires p in shards && forall q :: q in order ==> q in shards
    ensures MergedSymbols(order + [p], shards) == MergedSymbols(order, shards) + shards[p].interface.symbols
    ensures MergedImports(order + [p], shards) == MergedImports(order, shards) + shards[p].interface.imports
    ensures ModulePaths(order + [p], shards)
         == match shards[p].interface.home
            case Some(name) => ModulePaths(order, shards)[name := p]
            case None => ModulePaths(order, shards)
  {
    assert (order + [p])[..|order + [p]| - 1] == order;
  }

  // ------------------------------------------------ a name of another file

  const PKG := "pkg/__init__.py"
  const SUB := "pkg/sub.py"
  const PKG_SUB_X := SymbolId(["pkg"], ["pkg", "sub", "x"], PKG, 1, 0, false)

  function PackageBefore(): Shards {
    map[APP := Importing(["pkg", "sub", "x"]), PKG := Empty(Some(["pkg"])), SUB := Empty(Some(["pkg", "sub"]))]
  }

  /** The package's own file gains a class `sub` with an attribute `x`. */
  function PackageAfter(): Shards {
    PackageBefore()[PKG := Declaring(["pkg"], PKG_SUB_X, ["pkg", "sub", "x"])]
  }

  const PACKAGE_ORDER := [APP, PKG, SUB]

  lemma {:induction false} PackageModules(shards: Shards)
    requires shards == PackageBefore() || shards == PackageAfter()
    ensures ModulePaths(PACKAGE_ORDER, shards) == map[["app"] := APP, ["pkg"] := PKG, ["pkg", "sub"] := SUB]
  {
    MergedAppend([], APP, shards);
    MergedAppend([] + [APP], PKG, shards);
    MergedAppend([] + [APP] + [PKG], SUB, shards);
    assert PACKAGE_ORDER == [] + [APP] + [PKG] + [SUB];
    DifferentFiles();
  }

  lemma {:induction false} PackageTables(shards: Shards)
    requires shards == PackageBefore() || shards == PackageAfter()
    ensures MergedImports(PACKAGE_ORDER, shards) == map[APP_X := ["pkg", "sub", "x"]]
    ensures shards == PackageBefore() ==> ["pkg", "sub", "x"] !in MergedSymbols(PACKAGE_ORDER, shards)
    ensures shards == PackageAfter() ==>
              ["pkg", "sub", "x"] in MergedSymbols(PACKAGE_ORDER, shards)
              && MergedSymbols(PACKAGE_ORDER, shards)[["pkg", "sub", "x"]] == PKG_SUB_X
  {
    MergedAppend([], APP, shards);
    MergedAppend([] + [APP], PKG, shards);
    MergedAppend([] + [APP] + [PKG], SUB, shards);
    assert PACKAGE_ORDER == [] + [APP] + [PKG] + [SUB];
    DifferentFiles();
    assert ["pkg", "sub", "x"][0] == "pkg" && ["app", "x"][0] == "app" && "pkg"[0] != "app"[0];
  }

  lemma {:induction false} PackageNext(shards: Shards)
    requires shards == PackageBefore() || shards == PackageAfter()
    ensures var w := WorkspaceOf(PACKAGE_ORDER, shards);
            && ImportFile(w, APP_X) == Some(SUB)
            && Canonical(w.tables, APP_X) == if shards == PackageBefore() then APP_X else PKG_SUB_X
  {
    var w := WorkspaceOf(PACKAGE_ORDER, shards);
    var target := ["pkg", "sub", "x"];
    PackageModules(shards);
    PackageTables(shards);
    assert ["pkg"] in w.tables.modules && target[..1] == ["pkg"] <= ["pkg"];
    assert ImportTarget(w.tables, APP_X) == Some(target);
    assert target[2] == "x" && |target| == 3;
    assert target[..2] == ["pkg", "sub"];
    assert target !in w.modules;
    assert LongestModule(w.modules, target) == LongestModule(w.modules, target[..2]);
    if shards == PackageAfter() {
      assert Next(w.tables, APP_X) == Some(PKG_SUB_X);
      assert PKG_SUB_X !in w.tables.imports;
      assert Canonical(w.tables, PKG_SUB_X, {APP_X}) == PKG_SUB_X;
    } else {
      assert Next(w.tables, APP_X).None?;
    }
  }

  lemma {:induction false} AppResolution(w: Workspace, target: Name)
    ensures Resolve(w, APP, Importing(target)).references == [Reference(0, Some(Canonical(w.tables, APP_X)))]
    ensures Resolve(w, APP, Importing(target)).dependencies
         == {Canonical(w.tables, APP_X).file}
            + (if ImportFile(w, APP_X).Some? then {ImportFile(w, APP_X).value} else {})
  {
    var shard := Importing(target);
    var r := Resolve(w, APP, shard);
    assert r.references == [Reference(0, Some(Canonical(w.tables, APP_X)))];
    assert forall id :: id in shard.interface.imports <==> id == APP_X;
    assert r.references[0] in r.references;
    assert ReferenceFiles(r.references) == {Canonical(w.tables, APP_X).file};
    assert CalleeFiles(r.calls) == {};
  }

  lemma {:induction false} EmptyResolution(w: Workspace, path: Path, home: Option<Name>)
    ensures Resolve(w, path, Empty(home)).dependencies == {}
  {
  }

  lemma {:induction false} PackageAppBefore()
    ensures var r := Resolve(WorkspaceOf(PACKAGE_ORDER, PackageBefore()), APP, Importing(["pkg", "sub", "x"]));
            r.references == [Reference(0, Some(APP_X))] && PKG !in r.dependencies
  {
    PackageNext(PackageBefore());
    AppResolution(WorkspaceOf(PACKAGE_ORDER, PackageBefore()), ["pkg", "sub", "x"]);
    DifferentFiles();
  }

  lemma {:induction false} PackageAppAfter()
    ensures Resolve(WorkspaceOf(PACKAGE_ORDER, PackageAfter()), APP, Importing(["pkg", "sub", "x"])).references
         == [Reference(0, Some(PKG_SUB_X))]
  {
    PackageNext(PackageAfter());
    AppResolution(WorkspaceOf(PACKAGE_ORDER, PackageAfter()), ["pkg", "sub", "x"]);
    DifferentFiles();
    assert PackageAfter() != PackageBefore() by {
      assert PackageAfter()[PKG].interface.declared != PackageBefore()[PKG].interface.declared;
    }
  }

  lemma {:induction false} PackageDependencies(path: Path)
    requires path in PackageBefore()
    ensures PKG !in Resolve(WorkspaceOf(PACKAGE_ORDER, PackageBefore()), path, PackageBefore()[path]).dependencies
  {
    var w := WorkspaceOf(PACKAGE_ORDER, PackageBefore());
    DifferentFiles();
    if path == APP {
      PackageAppBefore();
    } else if path == PKG {
      EmptyResolution(w, PKG, Some(["pkg"]));
    } else {
      EmptyResolution(w, SUB, Some(["pkg", "sub"]));
    }
  }

  lemma {:induction false} PackageShards()
    ensures PackageBefore().Keys == PackageAfter().Keys == {APP, PKG, SUB}
    ensures PackageBefore()[APP] == PackageAfter()[APP] == Importing(["pkg", "sub", "x"])
    ensures forall p :: p in PackageBefore() ==> !HasFixtures(PackageBefore(), PackageAfter(), p)
  {
    DifferentFiles();
  }

  /** A dependency is charged to the file of the longest module prefix, here
      pkg/sub.py, so a name that pkg/__init__.py starts to define under that
      prefix leaves the importing file with its old, unresolved reference. */
  lemma {:induction false} UnownedNameGoesStale(prev: Index)
    requires Fresh(prev) && prev.order == PACKAGE_ORDER && prev.shards == PackageBefore()
    ensures Reused(prev, PACKAGE_ORDER, PackageAfter(), {PKG}, {}) != ResolveAll(PACKAGE_ORDER, PackageAfter())
  {
    PackageShards();
    DifferentFiles();
    forall p | p in prev.resolved
      ensures PKG !in prev.resolved[p].dependencies
    {
      PackageDependencies(p);
    }
    PackageAppBefore();
    PackageAppAfter();
    StaleWhenWrong(prev, PackageAfter(), PKG);
  }

  /** The name's file is not the one its prefix points to. */
  lemma {:induction false} PackageNameIsUnowned()
    ensures !Owned(PACKAGE_ORDER, PackageAfter())
  {
    PackageModules(PackageAfter());
    LongestOfTwo(ModulePaths(PACKAGE_ORDER, PackageAfter()), "pkg", "sub", "x");
    PackageName();
    DifferentFiles();
  }

  lemma {:induction false} PackageName()
    ensures PKG in PackageAfter() && ["pkg", "sub", "x"] in PackageAfter()[PKG].interface.symbols
  {
  }

  lemma {:induction false} LongestOfTwo(modules: map<Name, Path>, a: string, b: string, c: string)
    requires [a, b] in modules && forall n :: n in modules ==> |n| < 3
    ensures LongestModule(modules, [a, b, c]) == Some(modules[[a, b]])
  {
    var name := [a, b, c];
    assert name !in modules && name[..2] == [a, b];
  }

  // --------------------------------------------- a file that starts to parse

  const B := "b.py"
  const B_X := SymbolId(["b"], ["b", "x"], B, 0, 0, false)
  const BROKEN_ORDER := [APP, B]

  /** b.py has never parsed, so it has no module. */
  function BrokenBefore(): Shards {
    map[APP := Importing(["b", "x"]), B := Empty(None)]
  }

  function BrokenAfter(): Shards {
    map[APP := Importing(["b", "x"]), B := Declaring(["b"], B_X, ["b", "x"])]
  }

  lemma {:induction false} BrokenTables()
    ensures ModulePaths(BROKEN_ORDER, BrokenBefore()) == map[["app"] := APP]
    ensures ModulePaths(BROKEN_ORDER, BrokenAfter()) == map[["app"] := APP, ["b"] := B]
    ensures MergedImports(BROKEN_ORDER, BrokenBefore()) == map[APP_X := ["b", "x"]]
    ensures MergedImports(BROKEN_ORDER, BrokenAfter()) == map[APP_X := ["b", "x"]]
    ensures ["b", "x"] !in MergedSymbols(BROKEN_ORDER, BrokenBefore())
    ensures ["b", "x"] in MergedSymbols(BROKEN_ORDER, BrokenAfter())
    ensures MergedSymbols(BROKEN_ORDER, BrokenAfter())[["b", "x"]] == B_X
  {
    var before, after := BrokenBefore(), BrokenAfter();
    MergedAppend([], APP, before);
    MergedAppend([] + [APP], B, before);
    MergedAppend([], APP, after);
    MergedAppend([] + [APP], B, after);
    assert BROKEN_ORDER == [] + [APP] + [B];
    DifferentFiles();
    assert ["b", "x"][0] == "b" && ["app", "x"][0] == "app" && "b"[0] != "app"[0];
  }

  lemma {:induction false} BrokenNextBefore()
    ensures var w := WorkspaceOf(BROKEN_ORDER, BrokenBefore());
            ImportFile(w, APP_X) == None && Canonical(w.tables, APP_X) == APP_X
  {
    var w := WorkspaceOf(BROKEN_ORDER, BrokenBefore());
    var target := ["b", "x"];
    BrokenTables();
    assert target[..1] == ["b"] && target[..1][..0] == [];
    assert !IsNamespace(w.tables, ["b"]) by {
      assert w.tables.modules.Keys == {["app"]};
      assert ["b"][0] != ["app"][0];
    }
    assert ["app"][..0] == [];
    assert EnclosingPrefix(w.tables, [], "b", 0) == None;
    assert !IsPackageFile(APP);
    assert ImportTarget(w.tables, APP_X) == Some(target);
    assert target[0] != ["app"][0];
    assert LongestModule(w.modules, target) == LongestModule(w.modules, ["b"]) == LongestModule(w.modules, []);
    assert Next(w.tables, APP_X).None?;
  }

  lemma {:induction false} BrokenNextAfter()
    ensures Canonical(WorkspaceOf(BROKEN_ORDER, BrokenAfter()).tables, APP_X) == B_X
  {
    var w := WorkspaceOf(BROKEN_ORDER, BrokenAfter());
    BrokenTables();
    assert ["b"] in w.tables.modules && ["b", "x"][..1] == ["b"] <= ["b"];
    assert ImportTarget(w.tables, APP_X) == Some(["b", "x"]);
    assert Next(w.tables, APP_X) == Some(B_X);
    assert B_X !in w.tables.imports;
    assert Canonical(w.tables, B_X, {APP_X}) == B_X;
  }

  lemma {:induction false} BrokenDependencies(resolved: map<Path, Resolution>)
    requires resolved == ResolveAll(BROKEN_ORDER, BrokenBefore())
    ensures forall p :: p in resolved ==> B !in resolved[p].dependencies
    ensures resolved[APP].references == [Reference(0, Some(APP_X))]
  {
    var w := WorkspaceOf(BROKEN_ORDER, BrokenBefore());
    BrokenNextBefore();
    AppResolution(w, ["b", "x"]);
    EmptyResolution(w, B, None);
    DifferentFiles();
  }

  /** An import from a file that had never parsed recorded no dependency; when
      the file parses at last, the importing file keeps its unresolved reference. */
  lemma {:induction false} RepairedFileGoesUnnoticed(prev: Index)
    requires Fresh(prev) && prev.order == BROKEN_ORDER && prev.shards == BrokenBefore()
    ensures Reused(prev, BROKEN_ORDER, BrokenAfter(), {B}, {}) != ResolveAll(BROKEN_ORDER, BrokenAfter())
  {
    BrokenDependencies(prev.resolved);
    BrokenAppAfter();
    DifferentFiles();
    StaleWhenWrong(prev, BrokenAfter(), B);
  }

  lemma {:induction false} BrokenAppAfter()
    ensures APP in BrokenAfter() && BrokenAfter()[APP] == Importing(["b", "x"])
    ensures Resolve(WorkspaceOf(BROKEN_ORDER, BrokenAfter()), APP, BrokenAfter()[APP]).references
         == [Reference(0, Some(B_X))]
  {
    BrokenNextAfter();
    AppResolution(WorkspaceOf(BROKEN_ORDER, BrokenAfter()), ["b", "x"]);
    DifferentFiles();
  }

  // ------------------------------------------ an edit within the conditions

  const B_Y := SymbolId(["b"], ["b", "y"], B, 0, 0, false)

  /** b.py defines y instead of x. */
  function OrdinaryAfter(): Shards {
    BrokenAfter()[B := Declaring(["b"], B_Y, ["b", "y"])]
  }

  lemma {:induction false} OrdinaryModules(shards: Shards)
    requires shards == BrokenAfter() || shards == OrdinaryAfter()
    ensures ModulePaths(BROKEN_ORDER, shards) == map[["app"] := APP, ["b"] := B]
  {
    MergedAppend([], APP, shards);
    MergedAppend([] + [APP], B, shards);
    assert BROKEN_ORDER == [] + [APP] + [B];
    DifferentFiles();
  }

  lemma {:induction false} LongestOfOne(modules: map<Name, Path>, a: string, b: string)
    requires [a] in modules && forall n :: n in modules ==> |n| < 2
    ensures LongestModule(modules, [a, b]) == Some(modules[[a]])
  {
    assert [a, b] !in modules && [a, b][..1] == [a];
  }

  lemma {:induction false} OrdinaryOwned(shards: Shards)
    requires shards == BrokenAfter() || shards == OrdinaryAfter()
    ensures Owned(BROKEN_ORDER, shards)
  {
    OrdinaryModules(shards);
    DifferentFiles();
    var modules := ModulePaths(BROKEN_ORDER, shards);
    assert "app"[0] != "b"[0];
    LongestOfOne(modules, "app", "x");
    LongestOfOne(modules, "b", "x");
    LongestOfOne(modules, "b", "y");
  }

  lemma {:induction false} ImportingWellFormed(target: Name)
    ensures WellFormed(APP, Importing(target))
  {
  }

  lemma {:induction false} DeclaringWellFormed(home: Name, id: SymbolId, name: Name)
    ensures WellFormed(id.file, Declaring(home, id, name))
  {
  }

  lemma {:induction false} OrdinaryCoherent(shards: Shards)
    requires shards == BrokenAfter() || shards == OrdinaryAfter()
    ensures Coherent(BROKEN_ORDER, shards)
  {
    OrdinaryOwned(shards);
    ImportingWellFormed(["b", "x"]);
    DeclaringWellFormed(["b"], B_X, ["b", "x"]);
    DeclaringWellFormed(["b"], B_Y, ["b", "y"]);
    DifferentFiles();
  }

  lemma {:induction false} OrdinaryFollows(prev: Index)
    requires prev.order == BROKEN_ORDER && prev.shards == BrokenAfter()
    ensures Follows(prev, OrdinaryAfter(), {B})
  {
    OrdinaryCoherent(BrokenAfter());
    OrdinaryCoherent(OrdinaryAfter());
    OrdinaryShards();
  }

  lemma {:induction false} OrdinaryShards()
    ensures OrdinaryAfter().Keys == BrokenAfter().Keys && B in OrdinaryAfter()
    ensures forall p :: p in OrdinaryAfter() ==> BrokenAfter()[p].interface.home == OrdinaryAfter()[p].interface.home
    ensures forall p :: p in OrdinaryAfter() && p != B ==> BrokenAfter()[p] == OrdinaryAfter()[p]
  {
    DifferentFiles();
  }

  lemma {:induction false} OrdinaryInterfaces()
    ensures B in BrokenAfter() && B in OrdinaryAfter() && APP in OrdinaryAfter()
            && OrdinaryAfter().Keys == BrokenAfter().Keys
    ensures BrokenAfter()[B].interface.Compared() != OrdinaryAfter()[B].interface.Compared()
  {
    DifferentFiles();
    assert "x"[0] != "y"[0];
    assert BrokenAfter()[B].interface.declared == {B_X} && OrdinaryAfter()[B].interface.declared == {B_Y};
    assert B_X.qualname[1] != B_Y.qualname[1];
  }

  lemma {:induction false} BrokenAppDepends()
    ensures B in Resolve(WorkspaceOf(BROKEN_ORDER, BrokenAfter()), APP, Importing(["b", "x"])).dependencies
  {
    BrokenNextAfter();
    AppResolution(WorkspaceOf(BROKEN_ORDER, BrokenAfter()), ["b", "x"]);
  }

  lemma {:induction false} DependentIsAffected(prev: Index, after: Shards, file: Path, dependent: Path)
    requires Shaped(prev) && after.Keys == prev.shards.Keys && file in after && dependent in after && file != dependent
    requires prev.shards[file].interface.Compared() != after[file].interface.Compared()
             && file in prev.resolved[dependent].dependencies
    ensures dependent in Affected(prev, after, {file}, {})
  {
    var public := Public(prev.shards, after, {file});
    assert file in public && dependent in R.Succ(prev.dependents, file);
    R.SeedReaches(prev.dependents, public, file);
    R.StepReaches(prev.dependents, public, file, dependent);
  }

  /** An edit that changes an interface others import meets every condition under
      which reuse was proved to give the index built from scratch. */
  method OrdinaryEditFollows() returns (prev: Index)
    ensures Fresh(prev) && Follows(prev, OrdinaryAfter(), {B})
    ensures prev.shards[B].interface.Compared() != OrdinaryAfter()[B].interface.Compared()
            && APP in Affected(prev, OrdinaryAfter(), {B}, {})
  {
    assert forall p :: p in BROKEN_ORDER <==> p in BrokenAfter();
    prev := Rebuild(None, BROKEN_ORDER, BrokenAfter(), {}, {});
    OrdinaryFollows(prev);
    OrdinaryInterfaces();
    BrokenAppDepends();
    DifferentFiles();
    DependentIsAffected(prev, OrdinaryAfter(), B, APP);
  }
}
