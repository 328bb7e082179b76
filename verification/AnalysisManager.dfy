/** The locked sections of the analysis manager (src/pyflow/lsp/server.py).
    Everything outside a section works on values captured inside one, so the
    methods below are the atomic steps that concurrent operations interleave.
    Programs are represented by the sources they were extracted from. */
module AnalysisManager {
  import opened Wrappers
  import Documents

  type Path = string
  type Sources = map<Path, string>

  datatype Program = EmptyProgram | Extracted(sources: Sources)

  datatype Snapshot = Snapshot(
    program: Program, sources: Sources, revision: nat, semanticRevision: nat, sourceRevision: nat, stale: bool)

  /** The manager's mutable state. */
  datatype Manager = Manager(
    snapshot: Option<Snapshot>, files: set<Path>, nextRevision: nat, generation: nat, closed: bool, loaded: bool)

  /** What a syntax publication captures before it reads the documents. */
  datatype Captured = Captured(base: Snapshot, generation: nat, files: set<Path>)

  // ------------------------------------------------------ sections as functions

  /** `_configure_workspace`: a new generation; the old snapshot stays visible. */
  function Configured(m: Manager): Manager {
    m.(generation := m.generation + 1, closed := false)
  }

  function ClosedManager(m: Manager): Manager {
    Manager(None, {}, m.nextRevision, m.generation + 1, true, false)
  }

  /** Publishing the result of a load, unless it was overtaken. */
  function LoadCommitted(
    m: Manager, generation: nat, files: set<Path>, program: Program, sources: Sources, sourceRevision: nat): Manager
  {
    if m.closed || generation != m.generation then m
    else
      var revision := m.nextRevision + 1;
      m.(snapshot := Some(Snapshot(program, sources, revision, revision, sourceRevision, false)),
         files := files, nextRevision := revision, loaded := true)
  }

  /** Publishing current syntax over captured semantics, unless overtaken by a
      close, a new generation or a newer document revision. */
  function SyntaxCommitted(
    m: Manager, c: Captured, sources: Sources, sourceRevision: nat, documentRevision: nat): Manager
  {
    if m.closed || c.generation != m.generation || sourceRevision != documentRevision then m
    else
      var revision := m.nextRevision + 1;
      m.(snapshot := Some(Snapshot(c.base.program, sources, revision, c.base.semanticRevision, sourceRevision, true)),
         nextRevision := revision)
  }

  function Capture(m: Manager): Option<Captured> {
    if m.snapshot.None? || m.closed then None
    else Some(Captured(m.snapshot.value, m.generation, m.files))
  }

  function Refreshed(m: Manager, generation: nat, files: Option<set<Path>>): Manager {
    if m.closed || generation != m.generation || files.None? then m else m.(files := files.value)
  }

  // -------------------------------------------------------------------- texts

  predicate IsPython(path: Path) {
    |path| >= 3 && path[|path| - 3..] == ".py"
  }

  /** `_current_source_files`: every workspace file, overlay before disk (an
      unreadable file is empty), and every Python overlay. */
  function FullSources(files: set<Path>, overlays: Sources, disk: Sources): Sources {
    map p | p in files + (set q | q in overlays && IsPython(q)) ::
      if p in overlays then overlays[p] else if p in disk then disk[p] else ""
  }

  /** The sources a compiler load analyses: the listed files that could be read. */
  function LoadedSources(files: set<Path>, overlays: Sources, disk: Sources): Sources {
    map p | p in files && (p in overlays || p in disk) :: if p in overlays then overlays[p] else disk[p]
  }

  /** One path of the captured sources brought up to date. */
  function Patched(base: Sources, path: Path, overlays: Sources, disk: Sources, inWorkspace: bool): Sources {
    if path in overlays then base[path := overlays[path]]
    else if path in disk && inWorkspace then base[path := disk[path]]
    else base - {path}
  }

  function SyntaxSources(
    c: Captured, changed: Option<Path>, overlays: Sources, disk: Sources, inWorkspace: bool): Sources
  {
    match changed
    case None => FullSources(c.files, overlays, disk)
    case Some(path) => Patched(c.base.sources, path, overlays, disk, inWorkspace)
  }

  lemma {:induction false} PythonPaths(path: Path)
    ensures IsPython(path) <==> exists stem: string :: path == stem + ".py"
  {
    if IsPython(path) {
      assert path == path[..|path| - 3] + ".py";
    }
  }

  /** What is published when all files are read: the workspace's files and the open
      Python documents, an open one with its text, any other with the text on the
      disk, or empty when there is none. */
  ghost predicate FullyRead(sources: Sources, files: set<Path>, overlays: Sources, disk: Sources) {
    && (forall p :: p in sources <==> p in files || (p in overlays && IsPython(p)))
    && (forall p :: p in sources && p in overlays ==> sources[p] == overlays[p])
    && (forall p :: p in sources && p !in overlays && p in disk ==> sources[p] == disk[p])
    && (forall p :: p in sources && p !in overlays && p !in disk ==> sources[p] == "")
  }

  /** What is published when one path is read: its open text, or else the text on
      the disk when it is a workspace file there, or else nothing. All other paths
      keep what was published for them, or their absence. */
  ghost predicate PathRead(
    sources: Sources, base: Sources, path: Path, overlays: Sources, disk: Sources, inWorkspace: bool)
  {
    && (path in overlays ==> path in sources && sources[path] == overlays[path])
    && (path !in overlays && path in disk && inWorkspace ==> path in sources && sources[path] == disk[path])
    && (path !in overlays && !(path in disk && inWorkspace) ==> path !in sources)
    && (forall p :: p != path ==> (p in sources <==> p in base) && (p in sources ==> sources[p] == base[p]))
  }

  /** What a compiler load analyses: the listed files that could be read. */
  ghost predicate ListedRead(sources: Sources, files: set<Path>, overlays: Sources, disk: Sources) {
    && (forall p :: p in sources <==> p in files && (p in overlays || p in disk))
    && (forall p :: p in sources && p in overlays ==> sources[p] == overlays[p])
    && (forall p :: p in sources && p !in overlays ==> sources[p] == disk[p])
  }

  lemma {:induction false} SourcesAreRead(files: set<Path>, overlays: Sources, disk: Sources)
    ensures FullyRead(FullSources(files, overlays, disk), files, overlays, disk)
    ensures ListedRead(LoadedSources(files, overlays, disk), files, overlays, disk)
  {
  }

  /** A publication reads all files, or the one path that changed. */
  ghost predicate PublicationRead(
    sources: Sources, c: Captured, changed: Option<Path>, overlays: Sources, disk: Sources, inWorkspace: bool)
  {
    match changed
    case None => FullyRead(sources, c.files, overlays, disk)
    case Some(path) => PathRead(sources, c.base.sources, path, overlays, disk, inWorkspace)
  }

  lemma {:induction false} PublicationIsRead(
    c: Captured, changed: Option<Path>, overlays: Sources, disk: Sources, inWorkspace: bool)
    ensures PublicationRead(SyntaxSources(c, changed, overlays, disk, inWorkspace), c, changed, overlays, disk,
                            inWorkspace)
  {
    SourcesAreRead(c.files, overlays, disk);
  }

  // -------------------------------------------------------------------- class

  class AnalysisManager {
    var snapshot: Option<Snapshot>
    var files: set<Path>
    var nextRevision: nat
    var generation: nat
    var closed: bool
    var loaded: bool

    ghost function State(): Manager
      reads this
    {
      Manager(snapshot, files, nextRevision, generation, closed, loaded)
    }

    constructor ()
      ensures State() == Manager(None, {}, 0, 0, false, false)
    {
      snapshot, files, nextRevision, generation, closed, loaded := None, {}, 0, 0, false, false;
    }

    method ConfigureWorkspace() returns (started: nat)
      modifies this
      ensures State() == Configured(old(State())) && started == generation
    {
      generation := generation + 1;
      closed := false;
      return generation;
    }

    method Close()
      modifies this
      ensures State() == ClosedManager(old(State()))
    {
      generation := generation + 1;
      closed := true;
      snapshot := None;
      files := {};
      loaded := false;
    }

    method CommitLoad(captured: nat, loadedFiles: set<Path>, program: Program, sources: Sources, sourceRevision: nat)
      modifies this
      ensures State() == LoadCommitted(old(State()), captured, loadedFiles, program, sources, sourceRevision)
    {
      if closed || captured != generation {
        return;
      }
      nextRevision := nextRevision + 1;
      snapshot := Some(Snapshot(program, sources, nextRevision, nextRevision, sourceRevision, false));
      files := loadedFiles;
      loaded := true;
    }

    method BeginPublish() returns (captured: Option<Captured>)
      ensures captured == Capture(State())
    {
      if snapshot.None? || closed {
        return None;
      }
      return Some(Captured(snapshot.value, generation, files));
    }

    method CommitSyntax(c: Captured, sources: Sources, sourceRevision: nat, documentRevision: nat)
      modifies this
      ensures State() == SyntaxCommitted(old(State()), c, sources, sourceRevision, documentRevision)
    {
      if closed || c.generation != generation || sourceRevision != documentRevision {
        return;
      }
      nextRevision := nextRevision + 1;
      snapshot := Some(Snapshot(c.base.program, sources, nextRevision, c.base.semanticRevision, sourceRevision, true));
    }

    method CommitRefresh(captured: nat, discovered: Option<set<Path>>) returns (current: bool)
      modifies this
      ensures State() == Refreshed(old(State()), captured, discovered)
      ensures current == !(old(closed) || captured != old(generation))
      ensures files == if current && discovered.Some? then discovered.value else old(files)
    {
      if closed || captured != generation {
        return false;
      }
      if discovered.Some? {
        files := discovered.value;
      }
      return true;
    }

    /** The text of an open document is published. */
    ghost predicate Shows(overlays: Sources, path: Path)
      reads this
    {
      && snapshot.Some? && path in overlays
      && path in snapshot.value.sources && snapshot.value.sources[path] == overlays[path]
    }

    /** `_publish_syntax_snapshot` when nothing interferes: a snapshot at the
        documents' revision. A publication of all files has the text of every open
        workspace file and every open Python document; a patch has the open text of
        its own path and elsewhere what was published before, current or not. */
    method PublishSyntaxSnapshot(
      documents: Documents.WorkspaceDocuments, changed: Option<Path>, disk: Sources, inWorkspace: bool)
      modifies this
      ensures var m := old(State());
              State() == if Capture(m).None? then m
                         else SyntaxCommitted(
                                m, Capture(m).value,
                                SyntaxSources(Capture(m).value, changed, Documents.Texts(documents.State()), disk,
                                              inWorkspace),
                                documents.revision, documents.revision)
      ensures old(snapshot).Some? && !old(closed) ==>
                snapshot.Some? && snapshot.value.sourceRevision == documents.revision
      ensures old(snapshot).Some? && !old(closed) && changed.None? ==>
                FullyRead(snapshot.value.sources, files, Documents.Texts(documents.State()), disk)
      ensures old(snapshot).Some? && !old(closed) && changed.None? ==>
                var overlays := Documents.Texts(documents.State());
                forall p :: p in overlays && (p in files || IsPython(p)) ==> Shows(overlays, p)
      ensures old(snapshot).Some? && !old(closed) && changed.Some? ==>
                PathRead(snapshot.value.sources, old(snapshot).value.sources, changed.value,
                         Documents.Texts(documents.State()), disk, inWorkspace)
      ensures old(snapshot).Some? && !old(closed) && changed.Some? ==>
                var overlays, base := Documents.Texts(documents.State()), old(snapshot).value.sources;
                && (changed.value in overlays ==> Shows(overlays, changed.value))
                && forall p :: p != changed.value ==>
                     (Shows(overlays, p) <==> p in overlays && p in base && base[p] == overlays[p])
    {
      var captured := BeginPublish();
      if captured.None? {
        return;
      }
      var overlays, sourceRevision := documents.Snapshot();
      var sources: Sources;
      if changed.None? {
        sources := FullSources(captured.value.files, overlays, disk);
      } else {
        sources := Patched(captured.value.base.sources, changed.value, overlays, disk, inWorkspace);
      }
      PublicationIsRead(captured.value, changed, overlays, disk, inWorkspace);
      CommitSyntax(captured.value, sources, sourceRevision, documents.revision);
    }

    /** `load_source_files` when nothing interferes; the revision check that
        follows the commit then finds nothing to do. */
    method LoadSourceFiles(documents: Documents.WorkspaceDocuments, normalized: set<Path>, disk: Sources)
      modifies this
      ensures var m := Configured(old(State()));
              State() == LoadCommitted(
                m, m.generation, normalized, EmptyProgram,
                FullSources(normalized, Documents.Texts(documents.State()), disk), documents.revision)
      ensures loaded && !closed && files == normalized
      ensures snapshot.Some? && snapshot.value.sourceRevision == documents.revision && !snapshot.value.stale
      ensures FullyRead(snapshot.value.sources, normalized, Documents.Texts(documents.State()), disk)
      ensures var overlays := Documents.Texts(documents.State());
              forall p :: p in overlays && (p in normalized || IsPython(p)) ==> Shows(overlays, p)
    {
      var started := ConfigureWorkspace();
      var overlays, sourceRevision := documents.Snapshot();
      SourcesAreRead(normalized, overlays, disk);
      CommitLoad(started, normalized, EmptyProgram, FullSources(normalized, overlays, disk), sourceRevision);
    }
  }
}
