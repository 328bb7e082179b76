/** The incremental source index (`SourceIndex`, src/pyflow/lsp/workspace.py):
    after an edit only the files outside a dependency closure keep their cached
    resolution. The model keeps per file what resolution reads: the interface
    (declared symbols, import targets, fixture flag), references and calls.
    Member, keyword and framework lookups are not part of this model. */
module SourceIndex {
  import opened Wrappers
  import opened Resolver
  import R = Reachability

  datatype Reference = Reference(location: nat, id: Option<SymbolId>)

  datatype Call = Call(location: nat, caller: Option<SymbolId>, callee: Option<SymbolId>)

  /** The part of a shard that other files' resolutions may read. */
  datatype Interface = Interface(
    home: Option<Name>, declared: set<SymbolId>, symbols: map<Name, SymbolId>, imports: map<SymbolId, Name>,
    fixtures: bool, stale: bool)
  {
    /** What `_resolution_interface` compares: all but the module name. */
    function Compared(): Interface { this.(home := None) }
  }

  datatype Shard = Shard(
    interface: Interface, references: seq<Reference>, targets: map<nat, SymbolId>, calls: seq<Call>)

  type Shards = map<Path, Shard>

  /** What `_resolve_file` computes for one file. */
  datatype Resolution = Resolution(references: seq<Reference>, calls: seq<Call>, dependencies: set<Path>)

  datatype Index = Index(
    order: seq<Path>, shards: Shards, resolved: map<Path, Resolution>, dependents: map<Path, set<Path>>)

  // -------------------------------------------------------- workspace maps

  function ModuleId(name: Name, path: Path): SymbolId {
    SymbolId(name, name, path, 0, 0, true)
  }

  /** Dictionaries updated file by file, a later file overriding an earlier one. */
  function MergedSymbols(order: seq<Path>, shards: Shards): map<Name, SymbolId>
    requires forall p :: p in order ==> p in shards
  {
    if order == [] then map[]
    else MergedSymbols(order[..|order| - 1], shards) + shards[order[|order| - 1]].interface.symbols
  }

  function MergedImports(order: seq<Path>, shards: Shards): map<SymbolId, Name>
    requires forall p :: p in order ==> p in shards
  {
    if order == [] then map[]
    else MergedImports(order[..|order| - 1], shards) + shards[order[|order| - 1]].interface.imports
  }

  /** Module name to file, for the files that were parsed. */
  function ModulePaths(order: seq<Path>, shards: Shards): map<Name, Path>
    requires forall p :: p in order ==> p in shards
  {
    if order == [] then map[]
    else
      var last := order[|order| - 1];
      var before := ModulePaths(order[..|order| - 1], shards);
      match shards[last].interface.home
      case Some(name) => before[name := last]
      case None => before
  }

  function ModuleSymbols(modules: map<Name, Path>): map<Name, SymbolId> {
    map name | name in modules :: ModuleId(name, modules[name])
  }

  /** Everything `_resolve_file` reads besides the shard itself. */
  datatype Workspace = Workspace(tables: Tables, known: set<SymbolId>, modules: map<Name, Path>)

  function ModuleSymbolOf(path: Path, shard: Shard): Option<SymbolId> {
    match shard.interface.home
    case Some(name) => Some(ModuleId(name, path))
    case None => None
  }

  function Known(order: seq<Path>, shards: Shards): set<SymbolId>
    requires forall p :: p in order ==> p in shards
  {
    if order == [] then {}
    else
      var last := order[|order| - 1];
      var here := ModuleSymbolOf(last, shards[last]);
      Known(order[..|order| - 1], shards) + shards[last].interface.declared
      + (if here.Some? then {here.value} else {})
  }

  function WorkspaceOf(order: seq<Path>, shards: Shards): Workspace
    requires forall p :: p in order ==> p in shards
  {
    var modules := ModulePaths(order, shards);
    Workspace(
      Tables(MergedSymbols(order, shards), ModuleSymbols(modules), MergedImports(order, shards)),
      Known(order, shards), modules)
  }

  /** The last file, in order, of which something holds. */
  ghost predicate Last(order: seq<Path>, here: Path -> bool, p: Path) {
    exists i :: 0 <= i < |order| && order[i] == p && here(p) && forall j :: i < j < |order| ==> !here(order[j])
  }

  lemma {:induction false} LastOfMore(order: seq<Path>, here: Path -> bool, p: Path)
    requires order != []
    ensures var last := order[|order| - 1];
            Last(order, here, p) <==> if here(last) then p == last else Last(order[..|order| - 1], here, p)
  {
    var last, shorter := order[|order| - 1], order[..|order| - 1];
    if Last(shorter, here, p) && !here(last) {
      var i :| 0 <= i < |shorter| && shorter[i] == p && here(p) && forall j :: i < j < |shorter| ==> !here(shorter[j]);
      assert order[i] == p;
    }
    if Last(order, here, p) {
      var i :| 0 <= i < |order| && order[i] == p && here(p) && forall j :: i < j < |order| ==> !here(order[j]);
      if i < |order| - 1 {
        assert shorter[i] == p;
      }
    }
  }

  /** The symbol stands under the name in the last file that declares the name. */
  ghost predicate SymbolFrom(order: seq<Path>, shards: Shards, name: Name, id: SymbolId) {
    exists p ::
      && p in order && p in shards
      && Last(order, q => q in shards && name in shards[q].interface.symbols, p)
      && shards[p].interface.symbols[name] == id
  }

  lemma {:induction false} SymbolsMean(order: seq<Path>, shards: Shards, name: Name, id: SymbolId)
    requires forall p :: p in order ==> p in shards
    ensures name in MergedSymbols(order, shards) && MergedSymbols(order, shards)[name] == id <==>
              SymbolFrom(order, shards, name, id)
  {
    if order != [] {
      var here := (q: Path) => q in shards && name in shards[q].interface.symbols;
      var last, shorter := order[|order| - 1], order[..|order| - 1];
      assert order == shorter + [last];
      forall p
        ensures Last(order, here, p) <==> if here(last) then p == last else Last(shorter, here, p)
      {
        LastOfMore(order, here, p);
      }
      SymbolsMean(shorter, shards, name, id);
      assert SymbolFrom(order, shards, name, id) <==>
               exists p ::
                 && p in order && p in shards && Last(order, here, p)
                 && shards[p].interface.symbols[name] == id;
      assert SymbolFrom(shorter, shards, name, id) <==>
               exists p ::
                 && p in shorter && p in shards && Last(shorter, here, p)
                 && shards[p].interface.symbols[name] == id;
    }
  }

  /** The import has the target that the last file with it gives. */
  ghost predicate ImportFrom(order: seq<Path>, shards: Shards, id: SymbolId, target: Name) {
    exists p ::
      && p in order && p in shards
      && Last(order, q => q in shards && id in shards[q].interface.imports, p)
      && shards[p].interface.imports[id] == target
  }

  lemma {:induction false} ImportsMean(order: seq<Path>, shards: Shards, id: SymbolId, target: Name)
    requires forall p :: p in order ==> p in shards
    ensures id in MergedImports(order, shards) && MergedImports(order, shards)[id] == target <==>
              ImportFrom(order, shards, id, target)
  {
    if order != [] {
      var here := (q: Path) => q in shards && id in shards[q].interface.imports;
      var last, shorter := order[|order| - 1], order[..|order| - 1];
      assert order == shorter + [last];
      forall p
        ensures Last(order, here, p) <==> if here(last) then p == last else Last(shorter, here, p)
      {
        LastOfMore(order, here, p);
      }
      ImportsMean(shorter, shards, id, target);
      assert ImportFrom(order, shards, id, target) <==>
               exists p ::
                 && p in order && p in shards && Last(order, here, p)
                 && shards[p].interface.imports[id] == target;
      assert ImportFrom(shorter, shards, id, target) <==>
               exists p ::
                 && p in shorter && p in shards && Last(shorter, here, p)
                 && shards[p].interface.imports[id] == target;
    }
  }

  /** The module is the last file of that name. */
  ghost predicate ModuleFrom(order: seq<Path>, shards: Shards, name: Name, path: Path) {
    exists p ::
      && p in order && p in shards
      && Last(order, q => q in shards && shards[q].interface.home == Some(name), p)
      && p == path
  }

  lemma {:induction false} ModulesMean(order: seq<Path>, shards: Shards, name: Name, path: Path)
    requires forall p :: p in order ==> p in shards
    ensures name in ModulePaths(order, shards) && ModulePaths(order, shards)[name] == path <==>
              ModuleFrom(order, shards, name, path)
  {
    if order != [] {
      var here := (q: Path) => q in shards && shards[q].interface.home == Some(name);
      var last, shorter := order[|order| - 1], order[..|order| - 1];
      assert order == shorter + [last];
      forall p
        ensures Last(order, here, p) <==> if here(last) then p == last else Last(shorter, here, p)
      {
        LastOfMore(order, here, p);
      }
      ModulesMean(shorter, shards, name, path);
      assert ModuleFrom(order, shards, name, path) <==>
               exists p ::
                 && p in order && p in shards && Last(order, here, p)
                 && p == path;
      assert ModuleFrom(shorter, shards, name, path) <==>
               exists p ::
                 && p in shorter && p in shards && Last(shorter, here, p)
                 && p == path;
    }
  }

  /** A file declares the symbol, or is the module it stands for. */
  predicate Knows(p: Path, shard: Shard, id: SymbolId) {
    || id in shard.interface.declared
    || match shard.interface.home
       case Some(name) => id == SymbolId(name, name, p, 0, 0, true)
       case None => false
  }

  lemma {:induction false} KnownMeans(order: seq<Path>, shards: Shards, id: SymbolId)
    requires forall p :: p in order ==> p in shards
    ensures id in Known(order, shards) <==> exists p :: p in order && Knows(p, shards[p], id)
  {
    if order != [] {
      var last, shorter := order[|order| - 1], order[..|order| - 1];
      KnownMeans(shorter, shards, id);
      assert order == shorter + [last];
      assert id in Known(order, shards) <==> id in Known(shorter, shards) || Knows(last, shards[last], id);
    }
  }

  /** What the tables of a workspace hold: under each key the entry of the last file
      that has one, for each parsed file its module, and every declared symbol. */
  lemma {:induction false} WorkspaceMeans(order: seq<Path>, shards: Shards)
    requires forall p :: p in order ==> p in shards
    ensures var w := WorkspaceOf(order, shards);
            && (forall name, id :: SymbolFrom(order, shards, name, id) <==>
                  name in w.tables.symbols && w.tables.symbols[name] == id)
            && (forall id, target :: ImportFrom(order, shards, id, target) <==>
                  id in w.tables.imports && w.tables.imports[id] == target)
            && (forall name, path :: ModuleFrom(order, shards, name, path) <==>
                  name in w.modules && w.modules[name] == path)
            && (forall name :: name in w.tables.modules <==> name in w.modules)
            && (forall name :: name in w.modules ==>
                  w.tables.modules[name] == SymbolId(name, name, w.modules[name], 0, 0, true))
            && (forall id :: id in w.known <==> exists p :: p in order && Knows(p, shards[p], id))
  {
    var w := WorkspaceOf(order, shards);
    forall name, id
      ensures SymbolFrom(order, shards, name, id) <==> name in w.tables.symbols && w.tables.symbols[name] == id
    {
      SymbolsMean(order, shards, name, id);
    }
    forall id, target
      ensures ImportFrom(order, shards, id, target) <==> id in w.tables.imports && w.tables.imports[id] == target
    {
      ImportsMean(order, shards, id, target);
    }
    forall name, path
      ensures ModuleFrom(order, shards, name, path) <==> name in w.modules && w.modules[name] == path
    {
      ModulesMean(order, shards, name, path);
    }
    forall id
      ensures id in w.known <==> exists p :: p in order && Knows(p, shards[p], id)
    {
      KnownMeans(order, shards, id);
    }
  }

  // ------------------------------------------------------------ resolution

  /** The file of the longest prefix of a dotted name that is a module. */
  function LongestModule(modules: map<Name, Path>, name: Name): Option<Path> {
    if name == [] then None
    else if name in modules then Some(modules[name])
    else LongestModule(modules, name[..|name| - 1])
  }

  function ResolveReference(w: Workspace, shard: Shard, r: Reference): Reference {
    if r.location in shard.targets && Canonical(w.tables, shard.targets[r.location]) in w.known then
      r.(id := Some(Canonical(w.tables, shard.targets[r.location])))
    else
      r.(id := match r.id case Some(id) => Some(Canonical(w.tables, id)) case None => None)
  }

  function ResolveCall(w: Workspace, path: Path, shard: Shard, c: Call): Call {
    c.(caller := if c.caller.None? then ModuleSymbolOf(path, shard) else c.caller,
       callee := match c.callee case Some(id) => Some(Canonical(w.tables, id)) case None => None)
  }

  function ResolveReferences(w: Workspace, shard: Shard, rs: seq<Reference>): (r: seq<Reference>) {
    seq(|rs|, i requires 0 <= i < |rs| => ResolveReference(w, shard, rs[i]))
  }

  function ResolveCalls(w: Workspace, path: Path, shard: Shard, cs: seq<Call>): (r: seq<Call>) {
    seq(|cs|, i requires 0 <= i < |cs| => ResolveCall(w, path, shard, cs[i]))
  }

  function ReferenceFiles(rs: seq<Reference>): set<Path> {
    set r | r in rs && r.id.Some? :: r.id.value.file
  }

  function CalleeFiles(cs: seq<Call>): set<Path> {
    set c | c in cs && c.callee.Some? :: c.callee.value.file
  }

  /** The module file an import is charged to. */
  function ImportFile(w: Workspace, id: SymbolId): Option<Path> {
    match ImportTarget(w.tables, id)
    case Some(target) => LongestModule(w.modules, target)
    case None => None
  }

  function ImportFiles(w: Workspace, imports: map<SymbolId, Name>): set<Path> {
    set id | id in imports && ImportFile(w, id).Some? :: ImportFile(w, id).value
  }

  /** `_resolve_file` as a function of the workspace and the shard. */
  function Resolve(w: Workspace, path: Path, shard: Shard): Resolution {
    var references := ResolveReferences(w, shard, shard.references);
    var calls := ResolveCalls(w, path, shard, shard.calls);
    Resolution(references, calls,
               ReferenceFiles(references) + CalleeFiles(calls) + ImportFiles(w, shard.interface.imports))
  }

  /** Every file resolved anew. */
  function ResolveAll(order: seq<Path>, shards: Shards): map<Path, Resolution>
    requires forall p :: p in order ==> p in shards
  {
    map p | p in shards :: Resolve(WorkspaceOf(order, shards), p, shards[p])
  }

  /** The symbol that an alias chain settles on. */
  ghost predicate SettlesOn(t: Tables, id: SymbolId, r: SymbolId) {
    exists n: nat :: FirstSettled(t, id, n, r)
  }

  lemma {:induction false} CanonicalSettles(t: Tables, id: SymbolId)
    ensures SettlesOn(t, id, Canonical(t, id))
    ensures forall r :: SettlesOn(t, id, r) ==> r == Canonical(t, id)
  {
    CanonicalSettlesFirst(t, id);
    forall r | SettlesOn(t, id, r)
      ensures r == Canonical(t, id)
    {
      var n: nat :| FirstSettled(t, id, n, r);
      var m: nat :| FirstSettled(t, id, m, Canonical(t, id));
      FirstSettledUnique(t, id, n, r, m, Canonical(t, id));
    }
  }

  /** What a reference resolves to: what its target settles on, when that is known,
      and else what its own symbol settles on, if it has one. */
  ghost predicate ReferenceResolved(w: Workspace, shard: Shard, r: Reference, resolved: Reference) {
    && resolved.location == r.location
    && var targeted := r.location in shard.targets
                       && exists id :: SettlesOn(w.tables, shard.targets[r.location], id) && id in w.known;
       if targeted then resolved.id.Some? && SettlesOn(w.tables, shard.targets[r.location], resolved.id.value)
       else if r.id.None? then resolved.id.None?
       else resolved.id.Some? && SettlesOn(w.tables, r.id.value, resolved.id.value)
  }

  /** A call keeps its place and its caller, or is made by the module; its callee is
      what the alias settles on. */
  ghost predicate CallResolved(w: Workspace, path: Path, shard: Shard, c: Call, resolved: Call) {
    && resolved.location == c.location
    && (c.caller.Some? ==> resolved.caller == c.caller)
    && (c.caller.None? ==>
          resolved.caller == match shard.interface.home
                             case Some(name) => Some(SymbolId(name, name, path, 0, 0, true))
                             case None => None)
    && (resolved.callee.Some? <==> c.callee.Some?)
    && (c.callee.Some? ==> SettlesOn(w.tables, c.callee.value, resolved.callee.value))
  }

  /** The file that an import of this name depends on: that of the longest prefix
      that is a module. */
  ghost predicate OwnedBy(modules: map<Name, Path>, name: Name, path: Path) {
    exists k ::
      && 0 < k <= |name| && name[..k] in modules && modules[name[..k]] == path
      && forall j :: k < j <= |name| ==> name[..j] !in modules
  }

  lemma {:induction false} LongestModuleMeans(modules: map<Name, Path>, name: Name, path: Path)
    ensures LongestModule(modules, name) == Some(path) <==> OwnedBy(modules, name, path)
  {
    if name != [] {
      var shorter := name[..|name| - 1];
      assert name[..|name|] == name;
      assert forall j :: 0 <= j < |name| ==> shorter[..j] == name[..j];
      LongestModuleMeans(modules, shorter, path);
      if name !in modules {
        ShorterOwned(modules, name, path);
      }
    }
  }

  lemma {:induction false} ShorterOwned(modules: map<Name, Path>, name: Name, path: Path)
    requires name != [] && name !in modules
    ensures OwnedBy(modules, name[..|name| - 1], path) <==> OwnedBy(modules, name, path)
  {
    var shorter := name[..|name| - 1];
    assert name[..|name|] == name;
    assert forall j :: 0 <= j < |name| ==> shorter[..j] == name[..j];
    if OwnedBy(modules, shorter, path) {
      var k :| 0 < k <= |shorter| && shorter[..k] in modules && modules[shorter[..k]] == path
            && forall j :: k < j <= |shorter| ==> shorter[..j] !in modules;
      assert name[..k] in modules;
    }
    if OwnedBy(modules, name, path) {
      var k :| 0 < k <= |name| && name[..k] in modules && modules[name[..k]] == path
            && forall j :: k < j <= |name| ==> name[..j] !in modules;
      assert shorter[..k] in modules;
    }
  }

  /** What is resolved for a file: each reference and call in its place, and as
      dependencies exactly the files that those and the imports lead to. */
  lemma {:induction false} ResolutionMeans(w: Workspace, path: Path, shard: Shard)
    ensures var r := Resolve(w, path, shard);
            && |r.references| == |shard.references| && |r.calls| == |shard.calls|
            && (forall i :: 0 <= i < |r.references| ==>
                  ReferenceResolved(w, shard, shard.references[i], r.references[i]))
            && (forall i :: 0 <= i < |r.calls| ==> CallResolved(w, path, shard, shard.calls[i], r.calls[i]))
            && (forall file :: file in r.dependencies <==>
                  || (exists i :: 0 <= i < |r.references| && Refers(r.references[i], file))
                  || (exists i :: 0 <= i < |r.calls| && CallsInto(r.calls[i], file))
                  || (exists id :: id in shard.interface.imports && LeadsTo(w, id, file)))
  {
    var r := Resolve(w, path, shard);
    forall i | 0 <= i < |r.references|
      ensures ReferenceResolved(w, shard, shard.references[i], r.references[i])
    {
      OneReferenceResolved(w, shard, shard.references[i]);
    }
    forall i | 0 <= i < |r.calls|
      ensures CallResolved(w, path, shard, shard.calls[i], r.calls[i])
    {
      if shard.calls[i].callee.Some? {
        CanonicalSettles(w.tables, shard.calls[i].callee.value);
      }
    }
    forall file
      ensures file in r.dependencies <==>
                || (exists i :: 0 <= i < |r.references| && Refers(r.references[i], file))
                || (exists i :: 0 <= i < |r.calls| && CallsInto(r.calls[i], file))
                || (exists id :: id in shard.interface.imports && LeadsTo(w, id, file))
    {
      DependencyMeans(w, path, shard, file);
    }
  }

  ghost predicate Refers(r: Reference, file: Path) { r.id.Some? && r.id.value.file == file }

  ghost predicate CallsInto(c: Call, file: Path) { c.callee.Some? && c.callee.value.file == file }

  ghost predicate LeadsTo(w: Workspace, id: SymbolId, file: Path) {
    ImportTarget(w.tables, id).Some? && OwnedBy(w.modules, ImportTarget(w.tables, id).value, file)
  }

  lemma {:induction false} OneReferenceResolved(w: Workspace, shard: Shard, r: Reference)
    ensures ReferenceResolved(w, shard, r, ResolveReference(w, shard, r))
  {
    if r.location in shard.targets {
      CanonicalSettles(w.tables, shard.targets[r.location]);
    }
    if r.id.Some? {
      CanonicalSettles(w.tables, r.id.value);
    }
  }

  lemma {:induction false} DependencyMeans(w: Workspace, path: Path, shard: Shard, file: Path)
    ensures var r := Resolve(w, path, shard);
            file in r.dependencies <==>
              || (exists i :: 0 <= i < |r.references| && Refers(r.references[i], file))
              || (exists i :: 0 <= i < |r.calls| && CallsInto(r.calls[i], file))
              || (exists id :: id in shard.interface.imports && LeadsTo(w, id, file))
  {
    var r := Resolve(w, path, shard);
    assert file in ReferenceFiles(r.references) <==>
          exists i :: 0 <= i < |r.references| && Refers(r.references[i], file);
    assert file in CalleeFiles(r.calls) <==> exists i :: 0 <= i < |r.calls| && CallsInto(r.calls[i], file);
    forall id | id in shard.interface.imports
      ensures ImportFile(w, id) == Some(file) <==> LeadsTo(w, id, file)
    {
      if ImportTarget(w.tables, id).Some? {
        LongestModuleMeans(w.modules, ImportTarget(w.tables, id).value, file);
      }
    }
    assert file in ImportFiles(w, shard.interface.imports)
      <==> exists id :: id in shard.interface.imports && ImportFile(w, id) == Some(file);
  }

  /** The loops of `_resolve_file`, with one alias map shared by all references. */
  method ResolveFile(w: Workspace, aliases: map<SymbolId, SymbolId>, path: Path, shard: Shard)
    returns (resolution: Resolution)
    requires aliases == Aliases(w.tables)
    ensures resolution == Resolve(w, path, shard)
  {
    var references := ResolvedReferences(w, aliases, shard);
    var calls := ResolvedCalls(w, aliases, path, shard);
    var imported := ImportedFiles(w, shard.interface.imports);
    resolution := Resolution(references, calls, ReferenceFiles(references) + CalleeFiles(calls) + imported);
  }

  method ResolvedReference(w: Workspace, aliases: map<SymbolId, SymbolId>, shard: Shard, reference: Reference)
    returns (r: Reference)
    requires aliases == Aliases(w.tables)
    ensures r == ResolveReference(w, shard, reference)
  {
    r := reference;
    if r.id.Some? {
      OneAliasPassSuffices(w.tables, r.id.value);
      r := r.(id := Some(Resolved(aliases, r.id.value)));
    }
    if r.location in shard.targets {
      var target := Canonical(w.tables, shard.targets[r.location]);
      if target in w.known {
        r := r.(id := Some(target));
      }
    }
  }

  method ResolvedCall(w: Workspace, aliases: map<SymbolId, SymbolId>, path: Path, shard: Shard, call: Call)
    returns (c: Call)
    requires aliases == Aliases(w.tables)
    ensures c == ResolveCall(w, path, shard, call)
  {
    c := call;
    if c.caller.None? {
      c := c.(caller := ModuleSymbolOf(path, shard));
    }
    if c.callee.Some? {
      OneAliasPassSuffices(w.tables, c.callee.value);
      c := c.(callee := Some(Resolved(aliases, c.callee.value)));
    }
  }

  lemma {:induction false} ReferencesGrow(w: Workspace, shard: Shard, rs: seq<Reference>, i: nat)
    requires i < |rs|
    ensures ResolveReferences(w, shard, rs[..i + 1])
         == ResolveReferences(w, shard, rs[..i]) + [ResolveReference(w, shard, rs[i])]
  {
  }

  lemma {:induction false} CallsGrow(w: Workspace, path: Path, shard: Shard, cs: seq<Call>, i: nat)
    requires i < |cs|
    ensures ResolveCalls(w, path, shard, cs[..i + 1])
         == ResolveCalls(w, path, shard, cs[..i]) + [ResolveCall(w, path, shard, cs[i])]
  {
  }

  method ResolvedReferences(w: Workspace, aliases: map<SymbolId, SymbolId>, shard: Shard)
    returns (references: seq<Reference>)
    requires aliases == Aliases(w.tables)
    ensures references == ResolveReferences(w, shard, shard.references)
  {
    references := [];
    for i := 0 to |shard.references|
      invariant references == ResolveReferences(w, shard, shard.references[..i])
    {
      var r := ResolvedReference(w, aliases, shard, shard.references[i]);
      ReferencesGrow(w, shard, shard.references, i);
      references := references + [r];
    }
    assert shard.references[..|shard.references|] == shard.references;
  }

  method ResolvedCalls(w: Workspace, aliases: map<SymbolId, SymbolId>, path: Path, shard: Shard)
    returns (calls: seq<Call>)
    requires aliases == Aliases(w.tables)
    ensures calls == ResolveCalls(w, path, shard, shard.calls)
  {
    calls := [];
    for i := 0 to |shard.calls|
      invariant calls == ResolveCalls(w, path, shard, shard.calls[..i])
    {
      var c := ResolvedCall(w, aliases, path, shard, shard.calls[i]);
      CallsGrow(w, path, shard, shard.calls, i);
      calls := calls + [c];
    }
    assert shard.calls[..|shard.calls|] == shard.calls;
  }

  method ImportedFiles(w: Workspace, imports: map<SymbolId, Name>) returns (files: set<Path>)
    ensures files == ImportFiles(w, imports)
  {
    files := {};
    var pending := imports.Keys;
    while pending != {}
      invariant pending <= imports.Keys
      invariant files == set id | id in imports && id !in pending && ImportFile(w, id).Some? :: ImportFile(w, id).value
      decreases |pending|
    {
      var id :| id in pending;
      pending := pending - {id};
      var target := ImportTarget(w.tables, id).GetOr([]);
      var found := LongestModuleLoop(w.modules, target);
      if found.Some? {
        files := files + {found.value};
      }
    }
  }

  /** Dropping the last part until a module is found. */
  method LongestModuleLoop(modules: map<Name, Path>, name: Name) returns (found: Option<Path>)
    ensures found == LongestModule(modules, name)
    ensures found.Some? ==> exists k :: 0 < k <= |name| && name[..k] in modules && found.value == modules[name[..k]]
                                        && forall j :: k < j <= |name| ==> name[..j] !in modules
    ensures found.None? ==> forall j :: 0 < j <= |name| ==> name[..j] !in modules
  {
    var imported := name;
    assert imported == name[..|imported|];
    while imported != []
      invariant |imported| <= |name| && imported == name[..|imported|]
      invariant LongestModule(modules, imported) == LongestModule(modules, name)
      invariant forall j :: |imported| < j <= |name| ==> name[..j] !in modules
    {
      if imported in modules {
        assert name[..|imported|] in modules;
        return Some(modules[imported]);
      }
      imported := imported[..|imported| - 1];
    }
    return None;
  }
}
