/** Which cached resolutions survive an edit (`_affected_files`,
    `_rebuild_workspace_maps` and `with_source_files`,
    src/pyflow/lsp/workspace.py), and when the index that reuses them is the
    index built from scratch. */
module IncrementalIndex {
  import opened Wrappers
  import opened Resolver
  import opened SourceIndex
  import R = Reachability

  // ---------------------------------------------------------- dependents

  function DependentsOf(ix: Index, path: Path): set<Path> {
    R.Succ(ix.dependents, path)
  }

  /** The reverse dependency table says exactly which other files' resolutions
      recorded a dependency. */
  ghost predicate Recorded(dependents: map<Path, set<Path>>, resolved: map<Path, Resolution>) {
    forall p, f :: f in R.Succ(dependents, p) <==> f in resolved && p in resolved[f].dependencies && p != f
  }

  ghost predicate Shaped(ix: Index) {
    && (forall p :: p in ix.order <==> p in ix.shards)
    && ix.resolved.Keys == ix.shards.Keys
    && Recorded(ix.dependents, ix.resolved)
  }

  /** The index holds what resolving every one of its shards anew would give. */
  ghost predicate Fresh(ix: Index) {
    Shaped(ix) && ix.resolved == ResolveAll(ix.order, ix.shards)
  }

  // ------------------------------------------------------------ affected

  /** Touched files whose interface changed. */
  function Public(before: Shards, after: Shards, touched: set<Path>): set<Path> {
    set p |
      && p in touched
      && (p !in before || p !in after || before[p].interface.Compared() != after[p].interface.Compared())
  }

  predicate HasFixtures(before: Shards, after: Shards, p: Path) {
    (p in before && before[p].interface.fixtures) || (p in after && after[p].interface.fixtures)
  }

  /** What makes an edit concern every file: fixtures, or a write to a dynamic
      namespace. The files with such a write, before or after the edit, are given. */
  predicate Widens(before: Shards, after: Shards, dynamic: set<Path>, p: Path) {
    HasFixtures(before, after, p) || p in dynamic
  }

  /** The files that must be resolved again: all of them when the file set
      changed or a reached file widens the edit; otherwise the touched ones
      and everything that depends, through any number of files, on a changed
      interface. */
  ghost function Affected(prev: Index, after: Shards, touched: set<Path>, dynamic: set<Path>): set<Path> {
    var public := Public(prev.shards, after, touched);
    if after.Keys != prev.shards.Keys then after.Keys
    else if exists p :: R.Reaches(prev.dependents, public, p) && Widens(prev.shards, after, dynamic, p) then after.Keys
    else touched + set p | p in after && R.Reaches(prev.dependents, public, p)
  }

  /** Other files can tell that a file has changed: it came or went, or another symbol,
      import target or fixture is declared, or it broke or was repaired. */
  ghost predicate InterfaceChanged(before: Shards, after: Shards, p: Path) {
    || p !in before || p !in after
    || before[p].interface.declared != after[p].interface.declared
    || before[p].interface.symbols != after[p].interface.symbols
    || before[p].interface.imports != after[p].interface.imports
    || before[p].interface.fixtures != after[p].interface.fixtures
    || before[p].interface.stale != after[p].interface.stale
  }

  /** The edit reaches a file: from a touched file whose interface changed, along
      recorded dependencies. */
  ghost predicate Touches(prev: Index, after: Shards, touched: set<Path>, p: Path) {
    exists path ::
      && R.IsPath(prev.dependents, path) && path[|path| - 1] == p
      && path[0] in touched && InterfaceChanged(prev.shards, after, path[0])
  }

  /** Which files must be resolved again, told by the files: every one when files
      came or went, or when the edit reaches one with fixtures, before or after, or
      with a dynamic write; and else the touched ones and those it reaches. */
  lemma {:induction false} AffectedMeans(prev: Index, after: Shards, touched: set<Path>, dynamic: set<Path>)
    ensures Affected(prev, after, touched, dynamic)
         == var everywhere :=
              || after.Keys != prev.shards.Keys
              || exists p :: Touches(prev, after, touched, p)
                             && ((p in prev.shards && prev.shards[p].interface.fixtures)
                                 || (p in after && after[p].interface.fixtures) || p in dynamic);
            if everywhere then after.Keys else touched + set p | p in after && Touches(prev, after, touched, p)
  {
    var public := Public(prev.shards, after, touched);
    forall p
      ensures R.Reaches(prev.dependents, public, p) <==> Touches(prev, after, touched, p)
    {
      forall path: seq<Path> | path != []
        ensures path[0] in public <==> path[0] in touched && InterfaceChanged(prev.shards, after, path[0])
      {
      }
      if R.Reaches(prev.dependents, public, p) {
        var path :| R.PathTo(prev.dependents, public, path, p);
        assert R.IsPath(prev.dependents, path) && path[|path| - 1] == p && path[0] in touched;
      }
      if Touches(prev, after, touched, p) {
        var path :| R.IsPath(prev.dependents, path) && path[|path| - 1] == p
                 && path[0] in touched && InterfaceChanged(prev.shards, after, path[0]);
        assert R.PathTo(prev.dependents, public, path, p);
      }
    }
  }

  /** The invariant of the worklist: reached files only, none of them with
      fixtures, and `affected` holds the touched files and all dependents seen. */
  ghost predicate Draining(
    prev: Index, after: Shards, public: set<Path>, touched: set<Path>, dynamic: set<Path>,
    done: set<Path>, pending: set<Path>, affected: set<Path>)
  {
    && R.Draining(prev.dependents, public, done, pending)
    && done <= after.Keys && pending <= after.Keys
    && (forall x :: x in done ==> !Widens(prev.shards, after, dynamic, x))
    && touched <= affected
    && (forall e :: e in done ==> DependentsOf(prev, e) <= affected)
    && (forall x :: x in affected ==> x in touched || R.Reaches(prev.dependents, public, x))
  }

  lemma {:induction false} DrainingSkip(
    prev: Index, after: Shards, public: set<Path>, touched: set<Path>, dynamic: set<Path>,
    done: set<Path>, pending: set<Path>, affected: set<Path>, path: Path, rest: set<Path>)
    requires Draining(prev, after, public, touched, dynamic, done, pending, affected)
    requires path in done && pending == rest + {path}
    ensures Draining(prev, after, public, touched, dynamic, done, rest, affected)
  {
  }

  lemma {:induction false} DrainingStep(
    prev: Index, after: Shards, public: set<Path>, touched: set<Path>, dynamic: set<Path>,
    done: set<Path>, pending: set<Path>, affected: set<Path>, path: Path, rest: set<Path>)
    requires Shaped(prev) && prev.shards.Keys == after.Keys
    requires Draining(prev, after, public, touched, dynamic, done, pending, affected)
    requires pending == rest + {path} && !Widens(prev.shards, after, dynamic, path)
    ensures Draining(prev, after, public, touched, dynamic, done + {path},
                     rest + (DependentsOf(prev, path) - (done + {path})), affected + DependentsOf(prev, path))
  {
    R.DrainingStep(prev.dependents, public, done, pending, path, rest);
    R.SuccessorsReach(prev.dependents, public, path);
    DependentsAreFiles(prev, path);
  }

  lemma {:induction false} DependentsAreFiles(ix: Index, path: Path)
    requires Shaped(ix)
    ensures DependentsOf(ix, path) <= ix.shards.Keys
  {
  }

  lemma {:induction false} DrainedIsAffected(
    prev: Index, after: Shards, touched: set<Path>, dynamic: set<Path>, done: set<Path>, affected: set<Path>)
    requires after.Keys == prev.shards.Keys
    requires Draining(prev, after, Public(prev.shards, after, touched), touched, dynamic, done, {}, affected)
    ensures affected == Affected(prev, after, touched, dynamic)
  {
    var edges, public := prev.dependents, Public(prev.shards, after, touched);
    R.Drained(edges, public, done);
    forall x | x in done
      ensures x in affected
    {
      R.LastStep(edges, public, x);
    }
    assert affected == touched + set p | p in after && R.Reaches(edges, public, p);
  }

  lemma {:induction false} WideningReached(
    prev: Index, after: Shards, touched: set<Path>, dynamic: set<Path>, done: set<Path>, pending: set<Path>,
    affected: set<Path>, path: Path)
    requires Draining(prev, after, Public(prev.shards, after, touched), touched, dynamic, done, pending, affected)
    requires path in pending && Widens(prev.shards, after, dynamic, path)
    ensures Affected(prev, after, touched, dynamic) == after.Keys
  {
  }

  /** Expanding a file that does not widen the edit. */
  lemma {:induction false} Expanded(
    prev: Index, after: Shards, public: set<Path>, touched: set<Path>, dynamic: set<Path>,
    done: set<Path>, before: set<Path>, affected: set<Path>, path: Path, rest: seq<Path>, more: seq<Path>)
    requires Shaped(prev) && prev.shards.Keys == after.Keys && path !in done
    requires Draining(prev, after, public, touched, dynamic, done, before, affected)
    requires before == R.Elements(rest) + {path} && !Widens(prev.shards, after, dynamic, path)
    requires R.Elements(more) == DependentsOf(prev, path) - (done + {path})
    ensures Draining(prev, after, public, touched, dynamic, done + {path},
                     R.Elements(rest + more), affected + DependentsOf(prev, path))
    ensures |after.Keys - (done + {path})| < |after.Keys - done|
  {
    DrainingStep(prev, after, public, touched, dynamic, done, before, affected, path, R.Elements(rest));
    R.OneFewer(after.Keys, done, path);
    R.ElementsPush(rest, more);
  }

  /** `_affected_files`. */
  method AffectedFiles(prev: Index, after: Shards, touched: set<Path>, dynamic: set<Path>) returns (affected: set<Path>)
    requires Shaped(prev)
    requires touched <= prev.shards.Keys + after.Keys
    ensures affected == Affected(prev, after, touched, dynamic)
  {
    if after.Keys != prev.shards.Keys {
      return after.Keys;
    }
    var public := Public(prev.shards, after, touched);
    affected := touched;
    var pending := SetToSeq(public);
    var done: set<Path> := {};
    R.DrainingStarts(prev.dependents, public);
    while pending != []
      invariant Draining(prev, after, public, touched, dynamic, done, R.Elements(pending), affected)
      decreases |after.Keys - done|, |pending|
    {
      R.ElementsPop(pending);
      ghost var before := R.Elements(pending);
      var path := pending[|pending| - 1];
      pending := pending[..|pending| - 1];
      if path in done {
        DrainingSkip(prev, after, public, touched, dynamic, done, before, affected, path, R.Elements(pending));
        continue;
      }
      if Widens(prev.shards, after, dynamic, path) {
        WideningReached(prev, after, touched, dynamic, done, before, affected, path);
        return after.Keys;
      }
      var more := SetToSeq(DependentsOf(prev, path) - (done + {path}));
      Expanded(prev, after, public, touched, dynamic, done, before, affected, path, pending, more);
      done := done + {path};
      affected := affected + DependentsOf(prev, path);
      pending := pending + more;
    }
    assert R.Elements(pending) == {};
    DrainedIsAffected(prev, after, touched, dynamic, done, affected);
  }

  method SetToSeq(s: set<Path>) returns (r: seq<Path>)
    ensures R.Elements(r) == s
  {
    r := [];
    var left := s;
    while left != {}
      invariant left <= s && R.Elements(r) == s - left
      decreases |left|
    {
      var x :| x in left;
      left := left - {x};
      R.ElementsPush(r, [x]);
      assert R.Elements([x]) == {x};
      r := r + [x];
    }
  }

  // ------------------------------------------------------------- rebuild

  /** One file's resolution in the next index: the cached one unless affected. */
  function Chosen(prev: Option<Index>, affected: set<Path>, w: Workspace, after: Shards, path: Path): Resolution
    requires path in after
  {
    if prev.Some? && path !in affected && path in prev.value.resolved then prev.value.resolved[path]
    else Resolve(w, path, after[path])
  }

  ghost function Reused(
    prev: Index, order: seq<Path>, after: Shards, touched: set<Path>, dynamic: set<Path>): map<Path, Resolution>
    requires forall p :: p in order ==> p in after
  {
    var affected, w := Affected(prev, after, touched, dynamic), WorkspaceOf(order, after);
    map p | p in after :: Chosen(Some(prev), affected, w, after, p)
  }

  /** `_rebuild_workspace_maps`: resolve or reuse each file and record the
      dependencies of what it holds. */
  method Rebuild(
    prev: Option<Index>, order: seq<Path>, after: Shards, touched: set<Path>, dynamic: set<Path>) returns (ix: Index)
    requires forall p :: p in order <==> p in after
    requires prev.Some? ==> Shaped(prev.value) && touched <= prev.value.shards.Keys + after.Keys
    ensures Shaped(ix) && ix.order == order && ix.shards == after
    ensures prev.None? ==> ix.resolved == ResolveAll(order, after)
    ensures prev.Some? ==> ix.resolved == Reused(prev.value, order, after, touched, dynamic)
  {
    var affected := after.Keys;
    if prev.Some? {
      affected := AffectedFiles(prev.value, after, touched, dynamic);
    }
    var resolved, dependents := ResolveOrReuse(prev, order, after, affected);
    ix := Index(order, after, resolved, dependents);
    ChosenIsReused(prev, order, after, touched, dynamic, affected, resolved);
  }

  /** The loop over all files. */
  method ResolveOrReuse(prev: Option<Index>, order: seq<Path>, after: Shards, affected: set<Path>)
    returns (resolved: map<Path, Resolution>, dependents: map<Path, set<Path>>)
    requires forall p :: p in order ==> p in after
    ensures resolved.Keys == after.Keys && Recorded(dependents, resolved)
    ensures forall p :: p in resolved ==> resolved[p] == Chosen(prev, affected, WorkspaceOf(order, after), after, p)
  {
    var w := WorkspaceOf(order, after);
    var aliases := Aliases(w.tables);
    resolved, dependents := map[], map[];
    var left := after.Keys;
    while left != {}
      invariant left <= after.Keys && resolved.Keys == after.Keys - left
      invariant forall p :: p in resolved ==> resolved[p] == Chosen(prev, affected, w, after, p)
      invariant Recorded(dependents, resolved)
      decreases |left|
    {
      var path :| path in left;
      left := left - {path};
      var resolution: Resolution;
      if prev.Some? && path !in affected && path in prev.value.resolved {
        resolution := prev.value.resolved[path];
      } else {
        resolution := ResolveFile(w, aliases, path, after[path]);
      }
      dependents := Record(dependents, resolved, path, resolution);
      resolved := resolved[path := resolution];
    }
  }

  lemma {:induction false} ChosenIsReused(
    prev: Option<Index>, order: seq<Path>, after: Shards, touched: set<Path>, dynamic: set<Path>, affected: set<Path>,
    resolved: map<Path, Resolution>)
    requires forall p :: p in order ==> p in after
    requires prev.Some? ==> affected == Affected(prev.value, after, touched, dynamic)
    requires resolved.Keys == after.Keys
    requires forall p :: p in resolved ==> resolved[p] == Chosen(prev, affected, WorkspaceOf(order, after), after, p)
    ensures prev.None? ==> resolved == ResolveAll(order, after)
    ensures prev.Some? ==> resolved == Reused(prev.value, order, after, touched, dynamic)
  {
  }

  /** The reverse table r is the given one with one file recorded as a dependent
      of some others. */
  ghost predicate Extends(
    r: map<Path, set<Path>>, dependents: map<Path, set<Path>>, path: Path, dependencies: set<Path>)
  {
    forall p, f :: f in R.Succ(r, p) <==> f in R.Succ(dependents, p) || (f == path && p in dependencies && p != f)
  }

  lemma {:induction false} AddDependent(
    r: map<Path, set<Path>>, dependents: map<Path, set<Path>>, path: Path, dependencies: set<Path>, dependency: Path)
    requires Extends(r, dependents, path, dependencies)
    ensures Extends(if dependency == path then r else r[dependency := R.Succ(r, dependency) + {path}],
                    dependents, path, dependencies + {dependency})
  {
    var q := if dependency == path then r else r[dependency := R.Succ(r, dependency) + {path}];
    forall p, f
      ensures f in R.Succ(q, p) <==>
                f in R.Succ(dependents, p) || (f == path && p in dependencies + {dependency} && p != f)
    {
      if p == dependency && p != path {
        assert R.Succ(q, p) == R.Succ(r, p) + {path};
      } else {
        assert R.Succ(q, p) == R.Succ(r, p);
      }
    }
  }

  lemma {:induction false} ExtendsIsRecorded(
    r: map<Path, set<Path>>, dependents: map<Path, set<Path>>, resolved: map<Path, Resolution>, path: Path,
    resolution: Resolution)
    requires Recorded(dependents, resolved) && path !in resolved
             && Extends(r, dependents, path, resolution.dependencies)
    ensures Recorded(r, resolved[path := resolution])
  {
  }

  /** Adding one file's dependencies to the reverse table. */
  method Record(
    dependents: map<Path, set<Path>>, ghost resolved: map<Path, Resolution>, path: Path, resolution: Resolution)
    returns (r: map<Path, set<Path>>)
    requires Recorded(dependents, resolved) && path !in resolved
    ensures Recorded(r, resolved[path := resolution])
  {
    r := dependents;
    var left := resolution.dependencies;
    while left != {}
      invariant left <= resolution.dependencies
      invariant Extends(r, dependents, path, resolution.dependencies - left)
      decreases |left|
    {
      var dependency :| dependency in left;
      ghost var before := resolution.dependencies - left;
      AddDependent(r, dependents, path, before, dependency);
      left := left - {dependency};
      assert resolution.dependencies - left == before + {dependency};
      if dependency != path {
        r := r[dependency := R.Succ(r, dependency) + {path}];
      }
    }
    ExtendsIsRecorded(r, dependents, resolved, path, resolution);
  }

  // ------------------------------------------------------- changed sources

  type Texts = map<Path, string>

  /** Parsing a file, and rebasing its last good shard onto a text that does not
      parse; both are given. A file's module name depends on its path alone. */
  datatype Frontend = Frontend(
    parse: (Path, string) -> Shard, retain: (Shard, string) -> Shard, moduleName: Path -> Name)
  {
    ghost predicate Sound() {
      && (forall p, text :: parse(p, text).interface.home in {None, Some(moduleName(p))})
      && (forall s, text :: retain(s, text).interface.home == s.interface.home)
    }

    /** A text parses when its shard has a module. */
    predicate Parses(p: Path, text: string) {
      parse(p, text).interface.home.Some?
    }

    /** The file is parsed into a shard about its own symbols, under names that the
        module map assigns to it, and rebasing such a shard keeps it so. */
    ghost predicate SpeaksFor(modules: map<Name, Path>, p: Path, s: Shard, text: string) {
      && Own(modules, p, parse(p, text))
      && (Own(modules, p, s) ==> Own(modules, p, retain(s, text)))
    }

    /** These texts define no name that the module map assigns to another file. */
    ghost predicate Speaks(texts: Texts, modules: map<Name, Path>) {
      forall p, s :: p in texts ==> SpeaksFor(modules, p, s, texts[p])
    }
  }

  /** The shard of a file in the next index. */
  function NextShard(f: Frontend, ix: Index, texts: Texts, path: Path, text: string): Shard {
    if path in ix.shards && path in texts && texts[path] == text then ix.shards[path]
    else
      var updated := f.parse(path, text);
      if updated.interface.home.None? && path in ix.shards && ix.shards[path].interface.home.Some? then
        f.retain(ix.shards[path], text)
      else updated
  }

  function NextShards(f: Frontend, ix: Index, texts: Texts, next: Texts): Shards {
    map p | p in next :: NextShard(f, ix, texts, p, next[p])
  }

  function ChangedTexts(texts: Texts, next: Texts): set<Path> {
    set p | p in next && (p !in texts || texts[p] != next[p])
  }

  /** The loop over the new texts: only changed files are parsed; a file that
      stops parsing keeps its last good shard, rebased. */
  method ParseChanged(f: Frontend, ix: Index, texts: Texts, next: Texts) returns (shards: Shards)
    requires texts.Keys == ix.shards.Keys
    ensures shards == NextShards(f, ix, texts, next)
  {
    shards := map[];
    var left := next.Keys;
    while left != {}
      invariant left <= next.Keys && shards.Keys == next.Keys - left
      invariant forall p :: p in shards ==> shards[p] == NextShard(f, ix, texts, p, next[p])
      decreases |left|
    {
      var path :| path in left;
      left := left - {path};
      var shard := ParseFile(f, ix, texts, path, next[path]);
      shards := shards[path := shard];
    }
  }

  method ParseFile(f: Frontend, ix: Index, texts: Texts, path: Path, text: string) returns (shard: Shard)
    ensures shard == NextShard(f, ix, texts, path, text)
  {
    if path in ix.shards && path in texts && texts[path] == text {
      return ix.shards[path];
    }
    var updated := f.parse(path, text);
    if updated.interface.home.None? && path in ix.shards && ix.shards[path].interface.home.Some? {
      return f.retain(ix.shards[path], text);
    }
    return updated;
  }

  /** Which shard each file has after an update. A file whose text is the same
      keeps its shard; a changed text that parses is read; one that does not parse
      leaves an earlier good shard, rebased, and is read where there is none. */
  ghost predicate ReadsTexts(f: Frontend, before: Shards, texts: Texts, next: Texts, after: Shards) {
    && after.Keys == next.Keys
    && (forall p :: p in next && p in texts && texts[p] == next[p] && p in before ==> after[p] == before[p])
    && (forall p :: p in next && p in ChangedTexts(texts, next) && f.Parses(p, next[p]) ==>
          after[p] == f.parse(p, next[p]))
    && (forall p :: p in next && p in ChangedTexts(texts, next) && !f.Parses(p, next[p]) ==>
          after[p] == if p in before && before[p].interface.home.Some? then f.retain(before[p], next[p])
                      else f.parse(p, next[p]))
  }

  lemma {:induction false} NextShardsRead(f: Frontend, ix: Index, texts: Texts, next: Texts)
    requires texts.Keys == ix.shards.Keys
    ensures ReadsTexts(f, ix.shards, texts, next, NextShards(f, ix, texts, next))
  {
  }

  /** The index of the new texts: the same one when nothing changed, and else one
      with the next shards and their resolutions, reused or computed. */
  ghost predicate Updated(
    f: Frontend, ix: Index, texts: Texts, next: Texts, dynamic: set<Path>, order: seq<Path>, r: Index)
    requires forall p :: p in order ==> p in next
  {
    if next == texts then r == ix
    else
      && Shaped(r) && r.order == order && r.shards == NextShards(f, ix, texts, next)
      && r.resolved == Reused(ix, order, NextShards(f, ix, texts, next), ChangedTexts(texts, next), dynamic)
  }

  /** `with_source_files`. */
  method WithSourceFiles(
    f: Frontend, ix: Index, texts: Texts, next: Texts, dynamic: set<Path>, order: seq<Path>) returns (r: Index)
    requires Shaped(ix) && texts.Keys == ix.shards.Keys
    requires forall p :: p in order <==> p in next
    ensures ReadsTexts(f, ix.shards, texts, next, r.shards)
    ensures Updated(f, ix, texts, next, dynamic, order, r)
  {
    NextShardsRead(f, ix, texts, next);
    if next == texts {
      return ix;
    }
    var shards := ParseChanged(f, ix, texts, next);
    r := Rebuild(Some(ix), order, shards, ChangedTexts(texts, next), dynamic);
  }

  /** Once every file has parsed, no edit of their texts changes the path-to-module
      map, and the files whose shard may differ are the changed ones. */
  lemma {:induction false} TextEditsKeepModules(f: Frontend, ix: Index, texts: Texts, next: Texts, path: Path)
    requires f.Sound() && texts.Keys == ix.shards.Keys == next.Keys && path in next
    requires ix.shards[path].interface.home == Some(f.moduleName(path))
    ensures NextShards(f, ix, texts, next)[path].interface.home == ix.shards[path].interface.home
    ensures path !in ChangedTexts(texts, next) ==> NextShards(f, ix, texts, next)[path] == ix.shards[path]
  {
    assert f.parse(path, next[path]).interface.home in {None, Some(f.moduleName(path))};
  }

  // ------------------------------------------------- what the parser gives

  /** A file's shard speaks about that file's own symbols. */
  ghost predicate WellFormed(path: Path, s: Shard) {
    && (forall id :: id in s.interface.declared ==> id.file == path)
    && (forall n :: n in s.interface.symbols ==> s.interface.symbols[n] in s.interface.declared)
    && (forall id :: id in s.interface.imports ==> id.file == path)
    && (forall r :: r in s.references && r.id.Some? ==> r.id.value.file == path)
    && (forall l :: l in s.targets ==> s.targets[l].file == path)
    && (forall c :: c in s.calls && c.callee.Some? ==> c.callee.value.file == path)
  }

  /** Every qualified name belongs to the file of its longest module prefix. */
  ghost predicate Owned(order: seq<Path>, shards: Shards)
    requires forall p :: p in order ==> p in shards
  {
    forall p, n :: p in shards && n in shards[p].interface.symbols ==>
      LongestModule(ModulePaths(order, shards), n) == Some(p)
  }

  ghost predicate Own(modules: map<Name, Path>, p: Path, s: Shard) {
    WellFormed(p, s) && (forall n :: n in s.interface.symbols ==> LongestModule(modules, n) == Some(p))
  }

  ghost predicate Coherent(order: seq<Path>, shards: Shards) {
    && (forall p :: p in order <==> p in shards)
    && (forall p :: p in shards ==> WellFormed(p, shards[p]))
    && Owned(order, shards)
  }

  // ------------------------------------------------------ merged lookups

  lemma {:induction false} MergedSymbolsAt(order: seq<Path>, shards: Shards, name: Name, owner: Path)
    requires forall p :: p in order ==> p in shards
    requires forall p :: p in order && name in shards[p].interface.symbols ==> p == owner
    ensures name in MergedSymbols(order, shards) <==> owner in order && name in shards[owner].interface.symbols
    ensures name in MergedSymbols(order, shards) ==>
              MergedSymbols(order, shards)[name] == shards[owner].interface.symbols[name]
  {
    if order != [] {
      MergedSymbolsAt(order[..|order| - 1], shards, name, owner);
    }
  }

  lemma {:induction false} MergedImportsAt(order: seq<Path>, shards: Shards, id: SymbolId)
    requires forall p :: p in order ==> p in shards && WellFormed(p, shards[p])
    ensures id in MergedImports(order, shards) <==> id.file in order && id in shards[id.file].interface.imports
    ensures id in MergedImports(order, shards) ==>
              MergedImports(order, shards)[id] == shards[id.file].interface.imports[id]
  {
    if order != [] {
      MergedImportsAt(order[..|order| - 1], shards, id);
      assert WellFormed(order[|order| - 1], shards[order[|order| - 1]]);
    }
  }

  lemma {:induction false} KnownAt(order: seq<Path>, shards: Shards, id: SymbolId)
    requires forall p :: p in order ==> p in shards && WellFormed(p, shards[p])
    ensures id in Known(order, shards) <==>
              id.file in order
              && (id in shards[id.file].interface.declared || ModuleSymbolOf(id.file, shards[id.file]) == Some(id))
  {
    if order != [] {
      KnownAt(order[..|order| - 1], shards, id);
      assert WellFormed(order[|order| - 1], shards[order[|order| - 1]]);
    }
  }

  lemma {:induction false} ModulePathsAreFiles(order: seq<Path>, shards: Shards)
    requires forall p :: p in order ==> p in shards
    ensures forall name :: name in ModulePaths(order, shards) ==> ModulePaths(order, shards)[name] in order
  {
    if order != [] {
      ModulePathsAreFiles(order[..|order| - 1], shards);
    }
  }

  lemma {:induction false} SameHomesSameModules(order: seq<Path>, before: Shards, after: Shards)
    requires forall p :: p in order ==> p in before && p in after
    requires forall p :: p in order ==> before[p].interface.home == after[p].interface.home
    ensures ModulePaths(order, before) == ModulePaths(order, after)
  {
    if order != [] {
      SameHomesSameModules(order[..|order| - 1], before, after);
    }
  }

  lemma {:induction false} LongestModuleIsFile(modules: map<Name, Path>, files: set<Path>, name: Name)
    requires forall n :: n in modules ==> modules[n] in files
    ensures LongestModule(modules, name).Some? ==> LongestModule(modules, name).value in files
  {
    if name != [] && name !in modules {
      LongestModuleIsFile(modules, files, name[..|name| - 1]);
    }
  }

  lemma {:induction false} OwnersOf(order: seq<Path>, shards: Shards, name: Name, p: Path)
    requires Coherent(order, shards)
    requires p in order && name in shards[p].interface.symbols
    ensures LongestModule(ModulePaths(order, shards), name) == Some(p)
    ensures shards[p].interface.symbols[name].file == p
  {
    assert WellFormed(p, shards[p]);
  }

  /** A qualified name is looked up in the file of its longest module prefix. */
  lemma {:induction false} SymbolLookup(order: seq<Path>, shards: Shards, name: Name)
    requires Coherent(order, shards)
    ensures var owner := LongestModule(ModulePaths(order, shards), name);
            var merged := MergedSymbols(order, shards);
            && (name in merged
                <==> owner.Some? && owner.value in shards && name in shards[owner.value].interface.symbols)
            && (name in merged ==> merged[name] == shards[owner.value].interface.symbols[name]
                                   && merged[name].file == owner.value)
  {
    var owner := LongestModule(ModulePaths(order, shards), name).GetOr("");
    forall p | p in order && name in shards[p].interface.symbols
      ensures p == owner && shards[p].interface.symbols[name].file == p
      ensures LongestModule(ModulePaths(order, shards), name) == Some(p)
    {
      OwnersOf(order, shards, name, p);
    }
    MergedSymbolsAt(order, shards, name, owner);
  }

  // ------------------------------------------------------------ quiet files

  /** Two workspaces of the same files and modules, and a set of files that kept
      their interface and whose recorded dependencies stay in the set. */
  datatype Edit = Edit(order: seq<Path>, before: Shards, after: Shards, quiet: set<Path>) {
    ghost predicate Valid() {
      && Coherent(order, before) && Coherent(order, after)
      && (forall p :: p in order ==> before[p].interface.home == after[p].interface.home)
      && (forall p :: p in quiet ==> p in order && before[p].interface == after[p].interface)
      && (forall p, d ::
            p in quiet && d in order && d in ImportFiles(Old(), before[p].interface.imports) ==> d in quiet)
    }

    ghost function Old(): Workspace
      requires forall p :: p in order ==> p in before
    {
      WorkspaceOf(order, before)
    }

    ghost function New(): Workspace
      requires forall p :: p in order ==> p in after
    {
      WorkspaceOf(order, after)
    }
  }

  lemma {:induction false} SameModules(e: Edit)
    requires e.Valid()
    ensures e.Old().modules == e.New().modules
    ensures e.Old().tables.modules == e.New().tables.modules
  {
    SameHomesSameModules(e.order, e.before, e.after);
  }

  lemma {:induction false} EnclosingPrefixSame(t: Tables, u: Tables, parts: Name, head: string, end: nat)
    requires end <= |parts| && t.modules == u.modules
    ensures EnclosingPrefix(t, parts, head, end) == EnclosingPrefix(u, parts, head, end)
  {
    if end > 0 {
      EnclosingPrefixSame(t, u, parts, head, end - 1);
    }
  }

  lemma {:induction false} ImportTargetSame(t: Tables, u: Tables, id: SymbolId)
    requires t.modules == u.modules
    requires id in t.imports <==> id in u.imports
    requires id in t.imports ==> t.imports[id] == u.imports[id]
    ensures ImportTarget(t, id) == ImportTarget(u, id)
  {
    if id in t.imports && t.imports[id] != [] {
      var parts := if IsPackageFile(id.file) || id.home == [] then id.home else id.home[..|id.home| - 1];
      EnclosingPrefixSame(t, u, parts, t.imports[id][0], |parts|);
    }
  }

  /** An import in a quiet file has the same target as before. */
  lemma {:induction false} QuietTarget(e: Edit, id: SymbolId)
    requires e.Valid() && id.file in e.quiet
    ensures ImportTarget(e.Old().tables, id) == ImportTarget(e.New().tables, id)
    ensures ImportTarget(e.Old().tables, id).Some? ==> id in e.before[id.file].interface.imports
  {
    SameModules(e);
    MergedImportsAt(e.order, e.before, id);
    MergedImportsAt(e.order, e.after, id);
    ImportTargetSame(e.Old().tables, e.New().tables, id);
  }

  /** ... and that target belongs to a quiet file, or to none. */
  lemma {:induction false} QuietOwner(e: Edit, id: SymbolId)
    requires e.Valid() && id.file in e.quiet
    ensures ImportFile(e.Old(), id) == ImportFile(e.New(), id)
    ensures ImportFile(e.Old(), id).Some? ==> ImportFile(e.Old(), id).value in e.quiet
  {
    SameModules(e);
    QuietTarget(e, id);
    var owner := ImportFile(e.Old(), id);
    if owner.Some? {
      ModulePathsAreFiles(e.order, e.before);
      LongestModuleIsFile(e.Old().modules, e.before.Keys, ImportTarget(e.Old().tables, id).value);
      assert owner.value in ImportFiles(e.Old(), e.before[id.file].interface.imports);
    }
  }

  /** So the next symbol of an alias chain is the same, and quiet again. */
  lemma {:induction false} QuietNext(e: Edit, id: SymbolId)
    requires e.Valid() && id.file in e.quiet
    ensures Next(e.Old().tables, id) == Next(e.New().tables, id)
    ensures Next(e.Old().tables, id).Some? ==> Next(e.Old().tables, id).value.file in e.quiet
  {
    SameModules(e);
    QuietTarget(e, id);
    QuietOwner(e, id);
    var target := ImportTarget(e.Old().tables, id);
    if target.Some? {
      SymbolLookup(e.order, e.before, target.value);
      SymbolLookup(e.order, e.after, target.value);
    }
  }

  // ------------------------------------------- agreement of two workspaces

  /** Alias steps from the symbols of some files agree and stay in those files. */
  ghost predicate StepsAgree(t: Tables, u: Tables, quiet: set<Path>) {
    forall id: SymbolId :: id.file in quiet ==>
      Next(t, id) == Next(u, id) && (Next(t, id).Some? ==> Next(t, id).value.file in quiet)
  }

  lemma {:induction false} CanonicalAgrees(t: Tables, u: Tables, quiet: set<Path>, id: SymbolId, seen: set<SymbolId>)
    requires StepsAgree(t, u, quiet) && id.file in quiet
    ensures Canonical(t, id, seen) == Canonical(u, id, seen)
    ensures Canonical(t, id, seen).file in quiet
    decreases |t.imports.Keys - seen|
  {
    var next := Next(t, id);
    if id !in seen && next.Some? {
      R.OneFewer(t.imports.Keys, seen, id);
      CanonicalAgrees(t, u, quiet, next.value, seen + {id});
    }
  }

  /** All that resolution asks about a symbol of some files is answered alike. */
  ghost predicate Agree(v: Workspace, w: Workspace, quiet: set<Path>) {
    && (forall id: SymbolId :: id.file in quiet ==> ImportFile(v, id) == ImportFile(w, id))
    && (forall id: SymbolId :: id.file in quiet ==> (id in v.known <==> id in w.known))
    && (forall id: SymbolId :: id.file in quiet ==>
          Canonical(v.tables, id) == Canonical(w.tables, id) && Canonical(v.tables, id).file in quiet)
  }

  lemma {:induction false} QuietKnown(e: Edit, id: SymbolId)
    requires e.Valid() && id.file in e.quiet
    ensures id in e.Old().known <==> id in e.New().known
  {
    CoherentKnown(e.order, e.before, id);
    CoherentKnown(e.order, e.after, id);
  }

  lemma {:induction false} CoherentKnown(order: seq<Path>, shards: Shards, id: SymbolId)
    requires Coherent(order, shards)
    ensures id in WorkspaceOf(order, shards).known <==>
              id.file in order
              && (id in shards[id.file].interface.declared || ModuleSymbolOf(id.file, shards[id.file]) == Some(id))
  {
    KnownAt(order, shards, id);
  }

  lemma {:induction false} QuietSteps(e: Edit)
    requires e.Valid()
    ensures StepsAgree(e.Old().tables, e.New().tables, e.quiet)
  {
    forall id: SymbolId | id.file in e.quiet
      ensures Next(e.Old().tables, id) == Next(e.New().tables, id)
      ensures Next(e.Old().tables, id).Some? ==> Next(e.Old().tables, id).value.file in e.quiet
    {
      QuietNext(e, id);
    }
  }

  lemma {:induction false} QuietAgree(e: Edit)
    requires e.Valid()
    ensures Agree(e.Old(), e.New(), e.quiet)
  {
    QuietSteps(e);
    forall id: SymbolId | id.file in e.quiet
      ensures ImportFile(e.Old(), id) == ImportFile(e.New(), id)
      ensures id in e.Old().known <==> id in e.New().known
      ensures Canonical(e.Old().tables, id) == Canonical(e.New().tables, id)
      ensures Canonical(e.Old().tables, id).file in e.quiet
    {
      QuietOwner(e, id);
      QuietKnown(e, id);
      CanonicalAgrees(e.Old().tables, e.New().tables, e.quiet, id, {});
    }
  }

  lemma {:induction false} ReferenceAgrees(
    v: Workspace, w: Workspace, quiet: set<Path>, path: Path, shard: Shard, r: Reference)
    requires Agree(v, w, quiet) && path in quiet && WellFormed(path, shard) && r in shard.references
    ensures ResolveReference(v, shard, r) == ResolveReference(w, shard, r)
  {
    if r.location in shard.targets {
      var target := shard.targets[r.location];
      assert target.file == path;
      assert Canonical(v.tables, target) == Canonical(w.tables, target) && Canonical(v.tables, target).file in quiet;
    }
    if r.id.Some? {
      assert r.id.value.file == path;
      assert Canonical(v.tables, r.id.value) == Canonical(w.tables, r.id.value);
    }
  }

  lemma {:induction false} ReferencesAgree(v: Workspace, w: Workspace, quiet: set<Path>, path: Path, shard: Shard)
    requires Agree(v, w, quiet) && path in quiet && WellFormed(path, shard)
    ensures ResolveReferences(v, shard, shard.references) == ResolveReferences(w, shard, shard.references)
  {
    forall i | 0 <= i < |shard.references|
      ensures ResolveReference(v, shard, shard.references[i]) == ResolveReference(w, shard, shard.references[i])
    {
      ReferenceAgrees(v, w, quiet, path, shard, shard.references[i]);
    }
  }

  lemma {:induction false} CallsAgree(v: Workspace, w: Workspace, quiet: set<Path>, path: Path, shard: Shard)
    requires Agree(v, w, quiet) && path in quiet && WellFormed(path, shard)
    ensures ResolveCalls(v, path, shard, shard.calls) == ResolveCalls(w, path, shard, shard.calls)
  {
    forall i | 0 <= i < |shard.calls|
      ensures ResolveCall(v, path, shard, shard.calls[i]) == ResolveCall(w, path, shard, shard.calls[i])
    {
      assert shard.calls[i] in shard.calls;
    }
  }

  lemma {:induction false} ResolveAgrees(v: Workspace, w: Workspace, quiet: set<Path>, path: Path, shard: Shard)
    requires Agree(v, w, quiet) && path in quiet && WellFormed(path, shard)
    ensures Resolve(v, path, shard) == Resolve(w, path, shard)
  {
    ReferencesAgree(v, w, quiet, path, shard);
    CallsAgree(v, w, quiet, path, shard);
    var imports := shard.interface.imports;
    forall id | id in imports
      ensures ImportFile(v, id) == ImportFile(w, id)
    {
    }
    assert ImportFiles(v, imports) == ImportFiles(w, imports);
  }

  // ------------------------------------------------------------- theorems

  /** An edit within a fixed set of files and modules: shards that differ are
      among the touched ones, and both states come from the parser. */
  ghost predicate Follows(prev: Index, after: Shards, touched: set<Path>) {
    && after.Keys == prev.shards.Keys && touched <= after.Keys
    && Coherent(prev.order, prev.shards) && Coherent(prev.order, after)
    && (forall p :: p in after ==> prev.shards[p].interface.home == after[p].interface.home)
    && (forall p :: p in after && p !in touched ==> prev.shards[p] == after[p])
  }

  /** The files that no changed interface reaches. */
  ghost function Unreached(prev: Index, after: Shards, touched: set<Path>): set<Path> {
    set p | p in after && !R.Reaches(prev.dependents, Public(prev.shards, after, touched), p)
  }

  lemma {:induction false} UnreachedIsQuiet(prev: Index, after: Shards, touched: set<Path>)
    requires Fresh(prev) && Follows(prev, after, touched)
    ensures Edit(prev.order, prev.shards, after, Unreached(prev, after, touched)).Valid()
  {
    var public := Public(prev.shards, after, touched);
    var quiet := Unreached(prev, after, touched);
    var e := Edit(prev.order, prev.shards, after, quiet);
    forall p | p in quiet
      ensures prev.shards[p].interface == after[p].interface
    {
      if p in public {
        R.SeedReaches(prev.dependents, public, p);
      }
    }
    forall p, d | p in quiet && d in prev.order && d in ImportFiles(e.Old(), prev.shards[p].interface.imports)
      ensures d in quiet
    {
      assert prev.resolved[p] == Resolve(WorkspaceOf(prev.order, prev.shards), p, prev.shards[p]);
      if d != p && d !in quiet {
        R.StepReaches(prev.dependents, public, d, p);
      }
    }
  }

  /** A file outside the affected set keeps exactly the resolution it would be
      given anew. */
  lemma {:induction false} UnaffectedResolvesTheSame(
    prev: Index, after: Shards, touched: set<Path>, dynamic: set<Path>, path: Path)
    requires Fresh(prev) && Follows(prev, after, touched)
    requires path in after && path !in Affected(prev, after, touched, dynamic)
    ensures Resolve(WorkspaceOf(prev.order, after), path, after[path]) == prev.resolved[path]
  {
    var quiet := Unreached(prev, after, touched);
    UnreachedIsQuiet(prev, after, touched);
    QuietAgree(Edit(prev.order, prev.shards, after, quiet));
    assert path in quiet && prev.shards[path] == after[path];
    ResolveAgrees(WorkspaceOf(prev.order, prev.shards), WorkspaceOf(prev.order, after), quiet, path, after[path]);
  }

  lemma {:induction false} AllChosenFresh(prev: Option<Index>, affected: set<Path>, order: seq<Path>, after: Shards)
    requires forall p :: p in order ==> p in after
    requires var w := WorkspaceOf(order, after);
             forall p :: p in after ==> Chosen(prev, affected, w, after, p) == Resolve(w, p, after[p])
    ensures var w := WorkspaceOf(order, after);
            (map p | p in after :: Chosen(prev, affected, w, after, p)) == ResolveAll(order, after)
  {
  }

  /** Reusing cached resolutions gives the index built from scratch. */
  lemma {:induction false} ReusedIsFresh(prev: Index, after: Shards, touched: set<Path>, dynamic: set<Path>)
    requires Fresh(prev) && Follows(prev, after, touched)
    ensures Reused(prev, prev.order, after, touched, dynamic) == ResolveAll(prev.order, after)
  {
    var affected, w := Affected(prev, after, touched, dynamic), WorkspaceOf(prev.order, after);
    forall path | path in after
      ensures Chosen(Some(prev), affected, w, after, path) == Resolve(w, path, after[path])
    {
      if path !in affected {
        UnaffectedResolvesTheSame(prev, after, touched, dynamic, path);
      }
    }
    AllChosenFresh(Some(prev), affected, prev.order, after);
  }

  /** One edit of a session: what `Rebuild` promises of an index built on the
      one before it. */
  ghost predicate EditStep(prev: Index, touched: set<Path>, dynamic: set<Path>, next: Index) {
    && Follows(prev, next.shards, touched)
    && Shaped(next) && next.order == prev.order
    && next.resolved == Reused(prev, next.order, next.shards, touched, dynamic)
  }

  lemma {:induction false} EditStaysFresh(prev: Index, touched: set<Path>, dynamic: set<Path>, next: Index)
    requires Fresh(prev) && EditStep(prev, touched, dynamic, next)
    ensures Fresh(next)
  {
    ReusedIsFresh(prev, next.shards, touched, dynamic);
  }

  /** Each index of a session is built from the one before it. */
  ghost predicate IsSession(session: seq<Index>, touched: seq<set<Path>>, dynamic: seq<set<Path>>)
    decreases |touched|
  {
    && |session| == |touched| + 1 && |dynamic| == |touched|
    && (touched != [] ==>
        EditStep(session[0], touched[0], dynamic[0], session[1]) && IsSession(session[1..], touched[1..], dynamic[1..]))
  }

  /** In every session of edits over a fixed set of files and modules, each index
      built from the one before it, every index holds for every file what
      resolving its shards from scratch would give. */
  lemma {:induction false} EverySessionStaysFresh(
    session: seq<Index>, touched: seq<set<Path>>, dynamic: seq<set<Path>>, i: nat)
    requires IsSession(session, touched, dynamic) && Fresh(session[0])
    requires i < |session|
    ensures Fresh(session[i])
    decreases i
  {
    if i > 0 {
      EditStaysFresh(session[0], touched[0], dynamic[0], session[1]);
      EverySessionStaysFresh(session[1..], touched[1..], dynamic[1..], i - 1);
    }
  }

  // ---------------------------------------------------- sessions of texts

  ghost predicate AllOwn(modules: map<Name, Path>, shards: Shards) {
    forall p :: p in shards ==> Own(modules, p, shards[p])
  }

  lemma {:induction false} OwnIsCoherent(order: seq<Path>, shards: Shards)
    requires forall p :: p in order <==> p in shards
    requires AllOwn(ModulePaths(order, shards), shards)
    ensures Coherent(order, shards)
  {
    forall p | p in shards
      ensures WellFormed(p, shards[p])
      ensures forall n :: n in shards[p].interface.symbols ==> LongestModule(ModulePaths(order, shards), n) == Some(p)
    {
      assert Own(ModulePaths(order, shards), p, shards[p]);
    }
  }

  /** All files have parsed at some time, so that each has its module name. */
  ghost predicate AllParsed(f: Frontend, shards: Shards) {
    forall p :: p in shards ==> shards[p].interface.home == Some(f.moduleName(p))
  }

  /** An index of these texts, over a fixed module map, all of whose files have
      parsed and that holds what resolving them from scratch would give. */
  ghost predicate InSession(f: Frontend, modules: map<Name, Path>, order: seq<Path>, ix: Index, texts: Texts) {
    && Fresh(ix) && ix.order == order && texts.Keys == ix.shards.Keys
    && AllParsed(f, ix.shards) && modules == ModulePaths(order, ix.shards) && AllOwn(modules, ix.shards)
  }

  lemma {:induction false} NextShardOwn(
    f: Frontend, modules: map<Name, Path>, ix: Index, texts: Texts, p: Path, text: string)
    requires p in ix.shards && Own(modules, p, ix.shards[p]) && f.SpeaksFor(modules, p, ix.shards[p], text)
    ensures Own(modules, p, NextShard(f, ix, texts, p, text))
  {
  }

  lemma {:induction false} NextShardsFollow(
    f: Frontend, modules: map<Name, Path>, ix: Index, texts: Texts, next: Texts)
    requires f.Sound() && f.Speaks(next, modules)
    requires texts.Keys == ix.shards.Keys == next.Keys && AllParsed(f, ix.shards) && AllOwn(modules, ix.shards)
    ensures var after := NextShards(f, ix, texts, next);
            && AllParsed(f, after) && AllOwn(modules, after)
            && (forall p :: p in after && p !in ChangedTexts(texts, next) ==> after[p] == ix.shards[p])
  {
    var after := NextShards(f, ix, texts, next);
    forall p | p in after
      ensures Own(modules, p, after[p]) && after[p].interface.home == Some(f.moduleName(p))
      ensures p !in ChangedTexts(texts, next) ==> after[p] == ix.shards[p]
    {
      TextEditsKeepModules(f, ix, texts, next, p);
      assert f.SpeaksFor(modules, p, ix.shards[p], next[p]);
      NextShardOwn(f, modules, ix, texts, p, next[p]);
    }
  }

  lemma {:induction false} UpdatedStaysInSession(
    f: Frontend, modules: map<Name, Path>, order: seq<Path>, ix: Index, texts: Texts, next: Texts, dynamic: set<Path>,
    r: Index)
    requires f.Sound() && f.Speaks(next, modules)
    requires InSession(f, modules, order, ix, texts) && next.Keys == texts.Keys
    requires (forall p :: p in order ==> p in next) && Updated(f, ix, texts, next, dynamic, order, r)
    ensures InSession(f, modules, order, r, next)
  {
    if next != texts {
      NextShardsFollow(f, modules, ix, texts, next);
      SessionFollows(f, modules, order, ix, NextShards(f, ix, texts, next), ChangedTexts(texts, next));
      EditStaysFresh(ix, ChangedTexts(texts, next), dynamic, r);
    }
  }

  lemma {:induction false} SessionFollows(
    f: Frontend, modules: map<Name, Path>, order: seq<Path>, ix: Index, after: Shards, touched: set<Path>)
    requires Shaped(ix) && ix.order == order && modules == ModulePaths(order, ix.shards)
    requires AllParsed(f, ix.shards) && AllOwn(modules, ix.shards) && AllParsed(f, after) && AllOwn(modules, after)
    requires after.Keys == ix.shards.Keys && touched <= after.Keys
    requires forall p :: p in after && p !in touched ==> after[p] == ix.shards[p]
    ensures Follows(ix, after, touched) && modules == ModulePaths(order, after)
  {
    SameHomesSameModules(order, ix.shards, after);
    OwnIsCoherent(order, ix.shards);
    OwnIsCoherent(order, after);
  }

  /** Index number k + 1 is what the texts give from the index before it. */
  ghost predicate UpdatedAt(
    f: Frontend, session: seq<Index>, texts: seq<Texts>, dynamic: seq<set<Path>>, orders: seq<seq<Path>>, k: nat)
    requires |session| == |texts| == |dynamic| + 1 && |orders| == |dynamic| && k < |dynamic|
  {
    && (forall p :: p in orders[k] ==> p in texts[k + 1])
    && Updated(f, session[k], texts[k], texts[k + 1], dynamic[k], orders[k], session[k + 1])
  }

  /** In every session of texts over a fixed set of parsed files, whose names are
      owned by their files, where each index is what `WithSourceFiles` builds from
      the one before, every index holds for every file what resolving its shards
      from scratch would give. */
  lemma {:induction false} EveryTextSessionStaysFresh(
    f: Frontend, modules: map<Name, Path>, order: seq<Path>, session: seq<Index>, texts: seq<Texts>,
    orders: seq<seq<Path>>, dynamic: seq<set<Path>>, i: nat)
    requires |session| == |texts| == |dynamic| + 1 && |orders| == |dynamic| && i < |texts|
    requires forall k :: 0 <= k < |dynamic| ==> orders[k] == order
    requires forall k :: 0 <= k < |texts| ==> texts[k].Keys == texts[0].Keys
    requires f.Sound() && forall k :: 0 <= k < |texts| ==> f.Speaks(texts[k], modules)
    requires InSession(f, modules, order, session[0], texts[0])
    requires forall k :: 0 <= k < |dynamic| ==> UpdatedAt(f, session, texts, dynamic, orders, k)
    ensures InSession(f, modules, order, session[i], texts[i]) && Fresh(session[i])
    decreases i
  {
    if i > 0 {
      EveryTextSessionStaysFresh(f, modules, order, session, texts, orders, dynamic, i - 1);
      assert UpdatedAt(f, session, texts, dynamic, orders, i - 1);
      UpdatedStaysInSession(f, modules, order, session[i - 1], texts[i - 1], texts[i], dynamic[i - 1], session[i]);
    }
  }

  /** Every file whose text parses has exactly that parse. */
  ghost predicate ParsedAreRead(f: Frontend, shards: Shards, texts: Texts) {
    && shards.Keys == texts.Keys
    && forall p :: p in texts && f.Parses(p, texts[p]) ==> shards[p] == f.parse(p, texts[p])
  }

  lemma {:induction false} UpdateReadsParsed(
    f: Frontend, ix: Index, texts: Texts, next: Texts, dynamic: set<Path>, order: seq<Path>, r: Index)
    requires (forall p :: p in order ==> p in next) && Updated(f, ix, texts, next, dynamic, order, r)
    requires ParsedAreRead(f, ix.shards, texts)
    ensures ParsedAreRead(f, r.shards, next)
  {
    if next != texts {
      NextShardsRead(f, ix, texts, next);
      forall p | p in next && f.Parses(p, next[p])
        ensures r.shards[p] == f.parse(p, next[p])
      {
        if p !in ChangedTexts(texts, next) {
          assert texts[p] == next[p] && f.Parses(p, texts[p]);
        }
      }
    }
  }

  /** In every session of texts, files coming and going, a file whose text parses
      has exactly the parse of that text, whatever its texts were before. */
  lemma {:induction false} ParsedTextsAreRead(
    f: Frontend, session: seq<Index>, texts: seq<Texts>, orders: seq<seq<Path>>, dynamic: seq<set<Path>>, i: nat)
    requires |session| == |texts| == |dynamic| + 1 && |orders| == |dynamic| && i < |texts|
    requires ParsedAreRead(f, session[0].shards, texts[0])
    requires forall k :: 0 <= k < |dynamic| ==> UpdatedAt(f, session, texts, dynamic, orders, k)
    ensures ParsedAreRead(f, session[i].shards, texts[i])
    decreases i
  {
    if i > 0 {
      ParsedTextsAreRead(f, session, texts, orders, dynamic, i - 1);
      UpdatedAtReadsParsed(f, session, texts, orders, dynamic, i - 1);
    }
  }

  lemma {:induction false} UpdatedAtReadsParsed(
    f: Frontend, session: seq<Index>, texts: seq<Texts>, orders: seq<seq<Path>>, dynamic: seq<set<Path>>, k: nat)
    requires |session| == |texts| == |dynamic| + 1 && |orders| == |dynamic| && k < |dynamic|
    requires ParsedAreRead(f, session[k].shards, texts[k]) && UpdatedAt(f, session, texts, dynamic, orders, k)
    ensures ParsedAreRead(f, session[k + 1].shards, texts[k + 1])
  {
    UpdateReadsParsed(f, session[k], texts[k], texts[k + 1], dynamic[k], orders[k], session[k + 1]);
  }

  /** The shards of texts that all parse. */
  function ParseAll(f: Frontend, texts: Texts): Shards {
    map p | p in texts :: f.parse(p, texts[p])
  }

  lemma {:induction false} AllParsesAreRead(f: Frontend, shards: Shards, texts: Texts)
    requires ParsedAreRead(f, shards, texts) && forall p :: p in texts ==> f.Parses(p, texts[p])
    ensures shards == ParseAll(f, texts)
  {
  }

  /** So when all texts parse, nothing of the session is left in the index: it holds
      the parses of the texts and what resolving them from scratch gives. */
  lemma {:induction false} ParsedTextsLeaveNoHistory(
    f: Frontend, modules: map<Name, Path>, order: seq<Path>, session: seq<Index>, texts: seq<Texts>,
    orders: seq<seq<Path>>, dynamic: seq<set<Path>>, i: nat)
    requires |session| == |texts| == |dynamic| + 1 && |orders| == |dynamic| && i < |texts|
    requires forall k :: 0 <= k < |dynamic| ==> orders[k] == order
    requires forall k :: 0 <= k < |texts| ==> texts[k].Keys == texts[0].Keys
    requires f.Sound() && forall k :: 0 <= k < |texts| ==> f.Speaks(texts[k], modules)
    requires InSession(f, modules, order, session[0], texts[0]) && ParsedAreRead(f, session[0].shards, texts[0])
    requires forall k :: 0 <= k < |dynamic| ==> UpdatedAt(f, session, texts, dynamic, orders, k)
    requires forall p :: p in texts[i] ==> f.Parses(p, texts[i][p])
    ensures (forall p :: p in order ==> p in texts[i])
            && session[i].order == order && session[i].shards == ParseAll(f, texts[i])
            && session[i].resolved == ResolveAll(order, ParseAll(f, texts[i]))
  {
    EveryTextSessionStaysFresh(f, modules, order, session, texts, orders, dynamic, i);
    ParsedTextsAreRead(f, session, texts, orders, dynamic, i);
    AllParsesAreRead(f, session[i].shards, texts[i]);
  }
}
