/** Every interleaving of edits, refreshes, loads, configurations and closes of
    the analysis manager (src/pyflow/lsp/server.py), as a state machine whose
    steps are the locked sections and the unlocked reads between them. */
module SnapshotProtocol {
  import opened Wrappers
  import opened AnalysisManager
  import D = Documents

  /** The overlays a load has read, and the documents' revision at that moment. */
  datatype Reading = Reading(overlays: Sources, at: nat)

  /** What an operation in flight will do next, with what it has captured. */
  datatype Task =
    | AfterMutation(path: Path)                          // documents changed; reads `_loaded` next
    | Publish(changed: Option<Path>)                     // enters `_publish_syntax_snapshot`
    | PublishCaptured(changed: Option<Path>, captured: Captured)
    | PublishBuilt(changed: Option<Path>, captured: Captured, overlays: Sources, disk: Sources, inWorkspace: bool,
                   sources: Sources, sourceRevision: nat)
    | Refreshing(generation: nat)
    | SourceLoad(generation: nat, files: set<Path>)      // configured; reads the documents next
    | LoadWaiting(generation: nat, files: set<Path>)     // waits for the analysis lock
    | LoadOverlays(generation: nat, files: set<Path>, read: Reading)
    | LoadBuilding(generation: nat, files: set<Path>, read: Reading, sourceRevision: nat)
    | LoadBuilt(generation: nat, files: set<Path>, read: Reading, disk: Sources, program: Program, sources: Sources,
                sourceRevision: nat)
    | PostCheck(sourceRevision: nat)                     // committed; compares revisions next

  /** The published snapshots are kept in order, and with the current one the
      generation that was current when it was published. */
  datatype State = State(
    docs: D.Overlays, manager: Manager, tasks: map<nat, Task>, analyzing: Option<nat>,
    published: seq<Snapshot>, publishedIn: nat)

  const INITIAL := State(D.Overlays(map[], 0), Manager(None, {}, 0, 0, false, false), map[], None, [], 0)

  /** One step of the system. `Advance` moves one task to its next point; what it
      finds on disk, and whether a compiler load fails, is not the system's choice. */
  datatype Action =
    | Mutate(op: D.Operation, id: nat)
    | Configure(files: set<Path>, id: nat, sourcesOnly: bool)
    | Reload(files: set<Path>, id: nat)
    | Refresh(id: nat)
    | Shutdown
    | Advance(id: nat, disk: Sources, inWorkspace: bool, discovered: Option<set<Path>>, fails: bool)

  function Finish(s: State, id: nat): State {
    s.(tasks := s.tasks - {id}, analyzing := if s.analyzing == Some(id) then None else s.analyzing)
  }

  function Continue(s: State, id: nat, task: Task): State {
    s.(tasks := s.tasks[id := task])
  }

  /** The manager after a commit, with what it published appended. */
  function Committed(s: State, m: Manager): State {
    if m.nextRevision == s.manager.nextRevision || m.snapshot.None? then s.(manager := m)
    else s.(manager := m, published := s.published + [m.snapshot.value], publishedIn := m.generation)
  }

  function Start(s: State, action: Action): State
    requires !action.Advance?
  {
    match action
    case Mutate(op, id) =>
      var (docs, outcome) := D.Step(s.docs, op);
      if outcome.Accepted? then Continue(s.(docs := docs), id, AfterMutation(op.path)) else s
    case Configure(files, id, sourcesOnly) =>
      var m := Configured(s.manager);
      var load := if sourcesOnly then SourceLoad(m.generation, files) else LoadWaiting(m.generation, files);
      Continue(s.(manager := m), id, load)
    case Reload(files, id) => Continue(s, id, LoadWaiting(s.manager.generation, files))
    case Refresh(id) => if s.manager.closed then s else Continue(s, id, Refreshing(s.manager.generation))
    case Shutdown => s.(manager := ClosedManager(s.manager))
  }

  function Resume(
    s: State, id: nat, disk: Sources, inWorkspace: bool, discovered: Option<set<Path>>, fails: bool): State
    requires id in s.tasks
  {
    var overlays := D.Texts(s.docs);
    match s.tasks[id]
    case AfterMutation(path) =>
      if s.manager.loaded then Continue(s, id, Publish(Some(path))) else Finish(s, id)
    case Publish(changed) =>
      (match Capture(s.manager)
       case None => Finish(s, id)
       case Some(c) => Continue(s, id, PublishCaptured(changed, c)))
    case PublishCaptured(changed, c) =>
      var sources := SyntaxSources(c, changed, overlays, disk, inWorkspace);
      Continue(s, id, PublishBuilt(changed, c, overlays, disk, inWorkspace, sources, s.docs.revision))
    case PublishBuilt(_, c, _, _, _, sources, sourceRevision) =>
      Finish(Committed(s, SyntaxCommitted(s.manager, c, sources, sourceRevision, s.docs.revision)), id)
    case Refreshing(generation) =>
      if s.manager.closed || generation != s.manager.generation then Finish(s, id)
      else Continue(s.(manager := Refreshed(s.manager, generation, discovered)), id, Publish(None))
    case SourceLoad(generation, files) =>
      Continue(s, id, LoadBuilt(generation, files, Reading(overlays, s.docs.revision), disk, EmptyProgram,
                                FullSources(files, overlays, disk), s.docs.revision))
    case LoadWaiting(generation, files) =>
      if s.analyzing.Some? then s
      else Continue(s.(analyzing := Some(id)), id, LoadOverlays(generation, files, Reading(overlays, s.docs.revision)))
    case LoadOverlays(generation, files, read) =>
      Continue(s, id, LoadBuilding(generation, files, read, s.docs.revision))
    case LoadBuilding(generation, files, read, sourceRevision) =>
      if fails then Finish(s, id)
      else
        var sources := LoadedSources(files, read.overlays, disk);
        Continue(s, id, LoadBuilt(generation, files, read, disk, Extracted(sources), sources, sourceRevision))
    case LoadBuilt(generation, files, _, _, program, sources, sourceRevision) =>
      if s.manager.closed || generation != s.manager.generation then Finish(s, id)
      else Continue(Committed(s, LoadCommitted(s.manager, generation, files, program, sources, sourceRevision)),
                    id, PostCheck(sourceRevision))
    case PostCheck(sourceRevision) =>
      if s.docs.revision != sourceRevision then Continue(s, id, Publish(None)) else Finish(s, id)
  }

  /** A step is possible when it resumes a task in flight or starts a new one. */
  predicate Enabled(s: State, action: Action) {
    match action
    case Advance(id, _, _, _, _) => id in s.tasks
    case Shutdown => true
    case _ => action.id !in s.tasks
  }

  function Next(s: State, action: Action): State
    requires Enabled(s, action)
  {
    match action
    case Advance(id, disk, inWorkspace, discovered, fails) => Resume(s, id, disk, inWorkspace, discovered, fails)
    case _ => Start(s, action)
  }

  /** The state after a run of possible steps; a step that is not possible in
      the state it meets is skipped. */
  function After(s: State, actions: seq<Action>): State
    decreases |actions|
  {
    if actions == [] then s
    else After(if Enabled(s, actions[0]) then Next(s, actions[0]) else s, actions[1..])
  }

  // ------------------------------------------------------------- invariant

  /** A program comes from its snapshot's own sources, or from an earlier
      snapshot whose semantics it reports to carry. */
  ghost predicate Provenance(published: seq<Snapshot>, i: nat)
    requires i < |published|
  {
    var snapshot := published[i];
    if snapshot.stale then
      exists j :: 0 <= j < i && !published[j].stale
                  && published[j].program == snapshot.program && published[j].revision == snapshot.semanticRevision
    else
      && snapshot.semanticRevision == snapshot.revision
      && (snapshot.program == EmptyProgram || snapshot.program == Extracted(snapshot.sources))
  }

  ghost predicate HistorySound(s: State) {
    && s.manager.nextRevision == |s.published|
    && (forall i :: 0 <= i < |s.published| ==> s.published[i].revision == i + 1)
    && (forall i :: 0 <= i < |s.published| ==> s.published[i].sourceRevision <= s.docs.revision)
    && (forall i :: 0 <= i < |s.published| ==> Provenance(s.published, i))
    && (s.manager.snapshot.Some? ==> |s.published| > 0 && s.manager.snapshot.value == s.published[|s.published| - 1])
  }

  ghost predicate ManagerSound(s: State) {
    && (s.manager.loaded <==> s.manager.snapshot.Some?)
    && (s.manager.closed ==> s.manager.snapshot.None?)
    && s.publishedIn <= s.manager.generation
  }

  ghost predicate CaptureSound(s: State, c: Captured) {
    && c.base in s.published && c.generation <= s.manager.generation
    && (c.generation == s.manager.generation ==> s.manager.snapshot.Some?)
  }

  ghost predicate ReadingSound(s: State, read: Reading) {
    read.at <= s.docs.revision && (read.at == s.docs.revision ==> read.overlays == D.Texts(s.docs))
  }

  ghost predicate TaskSound(s: State, task: Task) {
    match task
    case AfterMutation(_) => true
    case Publish(_) => true
    case PublishCaptured(_, c) => CaptureSound(s, c)
    case PublishBuilt(_, c, overlays, _, _, _, sourceRevision) =>
      && CaptureSound(s, c) && sourceRevision <= s.docs.revision
      && (sourceRevision == s.docs.revision ==> overlays == D.Texts(s.docs))
    case Refreshing(generation) => generation <= s.manager.generation
    case SourceLoad(generation, _) => generation <= s.manager.generation
    case LoadWaiting(generation, _) => generation <= s.manager.generation
    case LoadOverlays(generation, _, read) => generation <= s.manager.generation && ReadingSound(s, read)
    case LoadBuilding(generation, _, read, sourceRevision) =>
      generation <= s.manager.generation && read.at <= sourceRevision <= s.docs.revision && ReadingSound(s, read)
    case LoadBuilt(generation, files, read, disk, program, sources, sourceRevision) =>
      && generation <= s.manager.generation && read.at <= sourceRevision <= s.docs.revision && ReadingSound(s, read)
      && (if program.EmptyProgram? then read.at == sourceRevision && sources == FullSources(files, read.overlays, disk)
          else program == Extracted(sources) && sources == LoadedSources(files, read.overlays, disk))
    case PostCheck(sourceRevision) => sourceRevision <= s.docs.revision
  }

  ghost predicate TasksSound(s: State) {
    forall id :: id in s.tasks ==> TaskSound(s, s.tasks[id])
  }

  /** Tasks that will still try to publish at the documents' current revision. */
  predicate Owes(s: State, task: Task) {
    match task
    case AfterMutation(_) => true
    case Publish(_) => true
    case PublishCaptured(_, c) => c.generation == s.manager.generation
    case PublishBuilt(_, c, _, _, _, _, sourceRevision) =>
      c.generation == s.manager.generation && sourceRevision == s.docs.revision
    case PostCheck(sourceRevision) => sourceRevision != s.docs.revision
    case _ => false
  }

  /** A snapshot published in the current generation is up to date with the
      documents' revision, or some task still owes a publication. */
  ghost predicate UpToDateOrOwed(s: State) {
    s.manager.snapshot.Some? && s.publishedIn == s.manager.generation
    && s.manager.snapshot.value.sourceRevision != s.docs.revision ==>
      exists id :: id in s.tasks && Owes(s, s.tasks[id])
  }

  ghost predicate Invariant(s: State) {
    HistorySound(s) && ManagerSound(s) && TasksSound(s) && UpToDateOrOwed(s)
  }

  // --------------------------------------------------------- preservation

  /** How the state moves: history, generations and revisions only grow, and an
      unchanged document revision means unchanged documents. */
  ghost predicate Grows(s: State, t: State) {
    && s.published <= t.published
    && s.manager.generation <= t.manager.generation
    && (s.manager.generation == t.manager.generation && s.manager.snapshot.Some? ==> t.manager.snapshot.Some?)
    && s.docs.revision <= t.docs.revision
    && (s.docs.revision == t.docs.revision ==> s.docs == t.docs)
  }

  lemma {:induction false} TaskStaysSound(s: State, t: State, task: Task)
    requires TaskSound(s, task) && Grows(s, t)
    ensures TaskSound(t, task)
  {
    assert forall x :: x in s.published ==> x in t.published;
  }

  lemma {:induction false} TasksStaySound(s: State, t: State)
    requires TasksSound(s) && Grows(s, t)
    requires forall id :: id in t.tasks ==> TaskSound(t, t.tasks[id]) || (id in s.tasks && t.tasks[id] == s.tasks[id])
    ensures TasksSound(t)
  {
    forall id | id in t.tasks
      ensures TaskSound(t, t.tasks[id])
    {
      if id in s.tasks && t.tasks[id] == s.tasks[id] {
        TaskStaysSound(s, t, s.tasks[id]);
      }
    }
  }

  lemma {:induction false} ProvenanceStays(published: seq<Snapshot>, snapshot: Snapshot, i: nat)
    requires i < |published| && Provenance(published, i)
    ensures Provenance(published + [snapshot], i)
  {
    var longer := published + [snapshot];
    if published[i].stale {
      var j :| 0 <= j < i && !published[j].stale
            && published[j].program == published[i].program && published[j].revision == published[i].semanticRevision;
      assert longer[j] == published[j];
    }
  }

  lemma {:induction false} PublishingStaysSound(s: State, m: Manager, snapshot: Snapshot)
    requires HistorySound(s)
    requires m.nextRevision == s.manager.nextRevision + 1 && m.snapshot == Some(snapshot)
    requires snapshot.revision == m.nextRevision && snapshot.sourceRevision <= s.docs.revision
    requires Provenance(s.published + [snapshot], |s.published|)
    ensures HistorySound(Committed(s, m))
  {
    var longer := s.published + [snapshot];
    forall i | 0 <= i < |longer|
      ensures Provenance(longer, i)
    {
      if i < |s.published| {
        ProvenanceStays(s.published, snapshot, i);
      }
    }
  }

  /** The semantics a stale snapshot carries over are those of a snapshot with
      provenance, so they have provenance too. */
  lemma {:induction false} CarriedOver(published: seq<Snapshot>, base: Snapshot, snapshot: Snapshot)
    requires base in published
    requires forall i :: 0 <= i < |published| ==> Provenance(published, i)
    requires snapshot.stale && snapshot.program == base.program && snapshot.semanticRevision == base.semanticRevision
    ensures Provenance(published + [snapshot], |published|)
  {
    var longer := published + [snapshot];
    var i :| 0 <= i < |published| && published[i] == base;
    assert Provenance(published, i);
    if base.stale {
      var j :| 0 <= j < i && !published[j].stale
            && published[j].program == base.program && published[j].revision == base.semanticRevision;
      assert longer[j] == published[j];
    } else {
      assert longer[i] == base;
    }
  }

  lemma {:induction false} LoadCommitSound(
    s: State, generation: nat, files: set<Path>, program: Program, sources: Sources, sourceRevision: nat)
    requires HistorySound(s) && ManagerSound(s) && sourceRevision <= s.docs.revision
    requires program == EmptyProgram || program == Extracted(sources)
    ensures var t := Committed(s, LoadCommitted(s.manager, generation, files, program, sources, sourceRevision));
            HistorySound(t) && ManagerSound(t) && Grows(s, t)
  {
    var m := LoadCommitted(s.manager, generation, files, program, sources, sourceRevision);
    if m != s.manager {
      PublishingStaysSound(s, m, m.snapshot.value);
    }
  }

  lemma {:induction false} SyntaxCommitSound(s: State, c: Captured, sources: Sources, sourceRevision: nat)
    requires HistorySound(s) && ManagerSound(s) && CaptureSound(s, c)
    ensures var t := Committed(s, SyntaxCommitted(s.manager, c, sources, sourceRevision, s.docs.revision));
            HistorySound(t) && ManagerSound(t) && Grows(s, t)
  {
    var m := SyntaxCommitted(s.manager, c, sources, sourceRevision, s.docs.revision);
    if m.nextRevision != s.manager.nextRevision {
      CarriedOver(s.published, c.base, m.snapshot.value);
      PublishingStaysSound(s, m, m.snapshot.value);
    }
  }

  lemma {:induction false} OwedByTheSame(s: State, t: State, id: nat)
    requires UpToDateOrOwed(s)
    requires t.docs == s.docs && t.publishedIn == s.publishedIn
    requires t.manager.snapshot == s.manager.snapshot && t.manager.generation == s.manager.generation
    requires forall x :: x in s.tasks && x != id ==> x in t.tasks && t.tasks[x] == s.tasks[x]
    requires id in s.tasks && Owes(s, s.tasks[id]) ==> id in t.tasks && Owes(t, t.tasks[id])
    ensures UpToDateOrOwed(t)
  {
    if t.manager.snapshot.Some? && t.publishedIn == t.manager.generation
       && t.manager.snapshot.value.sourceRevision != t.docs.revision {
      var x :| x in s.tasks && Owes(s, s.tasks[x]);
      assert x in t.tasks && Owes(t, t.tasks[x]);
    }
  }

  lemma {:induction false} OwedByTask(t: State, id: nat)
    requires id in t.tasks && Owes(t, t.tasks[id])
    ensures UpToDateOrOwed(t)
  {
  }

  lemma {:induction false} StartSound(s: State, action: Action)
    requires Invariant(s) && !action.Advance? && Enabled(s, action)
    ensures Invariant(Start(s, action)) && Grows(s, Start(s, action))
  {
    var t := Start(s, action);
    TasksStaySound(s, t);
    match action
    case Mutate(op, id) =>
      D.OnlyAcceptedLeaveATrace(s.docs, op);
      if D.Step(s.docs, op).1.Accepted? {
        OwedByTask(t, id);
      }
    case Configure(_, _, _) =>
    case Reload(_, id) => OwedByTheSame(s, t, id);
    case Refresh(id) => OwedByTheSame(s, t, id);
    case Shutdown =>
  }

  /** The steps of a syntax publication. */
  lemma {:induction false} ResumePublishSound(
    s: State, id: nat, disk: Sources, inWorkspace: bool, discovered: Option<set<Path>>, fails: bool)
    requires Invariant(s) && id in s.tasks
    requires s.tasks[id].Publish? || s.tasks[id].PublishCaptured? || s.tasks[id].PublishBuilt?
    ensures var t := Resume(s, id, disk, inWorkspace, discovered, fails); Invariant(t) && Grows(s, t)
  {
    var t := Resume(s, id, disk, inWorkspace, discovered, fails);
    match s.tasks[id]
    case Publish(_) =>
      TasksStaySound(s, t);
      if Capture(s.manager).Some? {
        OwedByTask(t, id);
      }
    case PublishCaptured(_, _) =>
      TasksStaySound(s, t);
      OwedByTheSame(s, t, id);
    case PublishBuilt(_, c, _, _, _, sources, sourceRevision) =>
      assert TaskSound(s, s.tasks[id]);
      SyntaxCommitSound(s, c, sources, sourceRevision);
      TasksStaySound(s, t);
      if t.manager == s.manager {
        if s.manager.closed {
        } else {
          OwedByTheSame(s, t, id);
        }
      }
  }

  /** The steps of edits, refreshes and loads up to their publications. */
  lemma {:induction false} ResumeOtherSound(
    s: State, id: nat, disk: Sources, inWorkspace: bool, discovered: Option<set<Path>>, fails: bool)
    requires Invariant(s) && id in s.tasks
    requires !(s.tasks[id].Publish? || s.tasks[id].PublishCaptured? || s.tasks[id].PublishBuilt?)
    ensures var t := Resume(s, id, disk, inWorkspace, discovered, fails); Invariant(t) && Grows(s, t)
  {
    var t := Resume(s, id, disk, inWorkspace, discovered, fails);
    assert TaskSound(s, s.tasks[id]);
    if s.tasks[id].LoadBuilt? {
      ResumeCommitSound(s, id, disk, inWorkspace, discovered, fails);
    } else if IsReading(s.tasks[id]) {
      ResumeReadingSound(s, id, disk, inWorkspace, discovered, fails);
    } else {
      TasksStaySound(s, t);
      if s.tasks[id].AfterMutation? {
        if s.manager.loaded {
          OwedByTask(t, id);
        }
      } else {
        OwedByTheSame(s, t, id);
      }
    }
  }

  /** A load before its build is done. */
  predicate IsReading(task: Task) {
    task.SourceLoad? || task.LoadWaiting? || task.LoadOverlays? || task.LoadBuilding?
  }

  lemma {:induction false} ResumeReadingSound(
    s: State, id: nat, disk: Sources, inWorkspace: bool, discovered: Option<set<Path>>, fails: bool)
    requires Invariant(s) && id in s.tasks && IsReading(s.tasks[id])
    ensures var t := Resume(s, id, disk, inWorkspace, discovered, fails); Invariant(t) && Grows(s, t)
  {
    var t := Resume(s, id, disk, inWorkspace, discovered, fails);
    assert TaskSound(s, s.tasks[id]);
    TasksStaySound(s, t);
    OwedByTheSame(s, t, id);
  }

  lemma {:induction false} ResumeCommitSound(
    s: State, id: nat, disk: Sources, inWorkspace: bool, discovered: Option<set<Path>>, fails: bool)
    requires Invariant(s) && id in s.tasks && s.tasks[id].LoadBuilt?
    ensures var t := Resume(s, id, disk, inWorkspace, discovered, fails); Invariant(t) && Grows(s, t)
  {
    var t := Resume(s, id, disk, inWorkspace, discovered, fails);
    assert TaskSound(s, s.tasks[id]);
    var LoadBuilt(generation, files, _, _, program, sources, sourceRevision) := s.tasks[id];
    LoadCommitSound(s, generation, files, program, sources, sourceRevision);
    TasksStaySound(s, t);
    if t.manager == s.manager {
      OwedByTheSame(s, t, id);
    } else if sourceRevision != s.docs.revision {
      OwedByTask(t, id);
    }
  }

  lemma {:induction false} NextSound(s: State, action: Action)
    requires Invariant(s) && Enabled(s, action)
    ensures Invariant(Next(s, action)) && Grows(s, Next(s, action))
  {
    match action
    case Advance(id, disk, inWorkspace, discovered, fails) =>
      if s.tasks[id].Publish? || s.tasks[id].PublishCaptured? || s.tasks[id].PublishBuilt? {
        ResumePublishSound(s, id, disk, inWorkspace, discovered, fails);
      } else {
        ResumeOtherSound(s, id, disk, inWorkspace, discovered, fails);
      }
    case _ => StartSound(s, action);
  }

  // -------------------------------------------------------------- theorems

  lemma {:induction false} InvariantAlongRuns(s: State, actions: seq<Action>)
    requires Invariant(s)
    ensures Invariant(After(s, actions)) && Grows(s, After(s, actions))
    decreases |actions|
  {
    if actions != [] {
      if Enabled(s, actions[0]) {
        NextSound(s, actions[0]);
        InvariantAlongRuns(Next(s, actions[0]), actions[1..]);
      } else {
        InvariantAlongRuns(s, actions[1..]);
      }
    }
  }

  /** In every run: when all operations have returned, a snapshot published in
      the current generation is at the documents' revision. */
  lemma {:induction false} QuiescentSnapshotIsCurrent(actions: seq<Action>)
    ensures var s := After(INITIAL, actions);
            s.tasks == map[] && s.manager.snapshot.Some? && s.publishedIn == s.manager.generation ==>
              s.manager.snapshot.value.sourceRevision == s.docs.revision
  {
    InvariantAlongRuns(INITIAL, actions);
  }

  /** In every run: published revisions strictly increase, and every snapshot
      ever published has provenance. */
  lemma {:induction false} PublishedHistory(actions: seq<Action>, i: nat, j: nat)
    requires i <= j < |After(INITIAL, actions).published|
    ensures var published := After(INITIAL, actions).published;
            && (i < j ==> published[i].revision < published[j].revision)
            && Provenance(published, j)
  {
    InvariantAlongRuns(INITIAL, actions);
  }

  function CapturedGeneration(task: Task): Option<nat> {
    match task
    case PublishBuilt(_, c, _, _, _, _, _) => Some(c.generation)
    case LoadBuilt(generation, _, _, _, _, _, _) => Some(generation)
    case _ => None
  }

  /** A step publishes only by finishing a build captured in the generation that
      is current at that moment, and never on a closed manager. */
  lemma {:induction false} OnlyCurrentBuildsArePublished(s: State, action: Action)
    requires Enabled(s, action) && Next(s, action).published != s.published
    ensures action.Advance? && !s.manager.closed
    ensures CapturedGeneration(s.tasks[action.id]) == Some(s.manager.generation)
  {
  }

  /** From a close until the next configuration nothing is published and nothing
      can be read. */
  lemma {:induction false} NothingPublishedAfterClose(s: State, actions: seq<Action>)
    requires s.manager.closed && s.manager.snapshot.None?
    requires forall a :: a in actions ==> !a.Configure?
    ensures After(s, actions).published == s.published
    ensures After(s, actions).manager.closed && After(s, actions).manager.snapshot.None?
    decreases |actions|
  {
    if actions != [] {
      var t := if Enabled(s, actions[0]) then Next(s, actions[0]) else s;
      assert actions[0] in actions;
      if Enabled(s, actions[0]) && Next(s, actions[0]).published != s.published {
        OnlyCurrentBuildsArePublished(s, actions[0]);
      }
      NothingPublishedAfterClose(t, actions[1..]);
    }
  }

  // ---------------------------------------------------- the analysis lock

  /** The tasks between a compiler load's first read and its commit. */
  predicate InAnalysis(task: Task) {
    task.LoadOverlays? || task.LoadBuilding? || (task.LoadBuilt? && task.program.Extracted?)
  }

  predicate IsAnalysis(snapshot: Snapshot) {
    !snapshot.stale && snapshot.program.Extracted?
  }

  /** Only the holder of the analysis lock is between read and commit. */
  ghost predicate LockHeld(s: State) {
    && (forall id :: id in s.tasks && InAnalysis(s.tasks[id]) ==> s.analyzing == Some(id))
    && (s.analyzing.Some? ==> s.analyzing.value in s.tasks)
  }

  ghost predicate NoNewerAnalysis(published: seq<Snapshot>, sourceRevision: nat) {
    forall i :: 0 <= i < |published| && IsAnalysis(published[i]) ==> published[i].sourceRevision <= sourceRevision
  }

  ghost predicate AnalysesInOrder(published: seq<Snapshot>) {
    forall i, j :: 0 <= i < j < |published| && IsAnalysis(published[i]) && IsAnalysis(published[j]) ==>
      published[i].sourceRevision <= published[j].sourceRevision
  }

  /** A load that holds the lock and has read the documents' revision. */
  predicate ReadsForAnalysis(task: Task) {
    (task.LoadBuilding? || task.LoadBuilt?) && InAnalysis(task)
  }

  /** ... and what the holder read is no older than any analysis published before. */
  ghost predicate AnalysisOrdered(s: State) {
    && LockHeld(s)
    && AnalysesInOrder(s.published)
    && (forall id :: id in s.tasks && ReadsForAnalysis(s.tasks[id]) ==>
          NoNewerAnalysis(s.published, s.tasks[id].sourceRevision))
  }

  /** A start adds at most a task that is not between read and commit. */
  lemma {:induction false} LockKeptByStart(s: State, action: Action)
    requires LockHeld(s) && Enabled(s, action) && !action.Advance?
    ensures LockHeld(Start(s, action))
  {
    var t := Start(s, action);
    forall id | id in t.tasks && InAnalysis(t.tasks[id])
      ensures t.analyzing == Some(id)
    {
      assert id in s.tasks && t.tasks[id] == s.tasks[id];
    }
  }

  lemma {:induction false} LockKeptByFinish(s: State, id: nat)
    requires LockHeld(s)
    ensures LockHeld(Finish(s, id))
  {
  }

  lemma {:induction false} LockKeptByContinue(s: State, id: nat, task: Task)
    requires LockHeld(s) && id in s.tasks && (InAnalysis(task) ==> s.analyzing == Some(id))
    ensures LockHeld(Continue(s, id, task))
  {
  }

  /** Committing touches neither tasks nor lock. */
  lemma {:induction false} LockKeptByCommit(s: State, m: Manager)
    requires LockHeld(s)
    ensures LockHeld(Committed(s, m))
  {
  }

  lemma {:induction false} LockKeptByPublish(
    s: State, id: nat, disk: Sources, inWorkspace: bool, discovered: Option<set<Path>>, fails: bool)
    requires LockHeld(s) && id in s.tasks && !InAnalysis(s.tasks[id]) && !s.tasks[id].LoadWaiting?
    ensures LockHeld(Resume(s, id, disk, inWorkspace, discovered, fails))
  {
    LockKeptByFinish(s, id);
    match s.tasks[id]
    case PublishBuilt(_, c, _, _, _, sources, sourceRevision) =>
      var t := Committed(s, SyntaxCommitted(s.manager, c, sources, sourceRevision, s.docs.revision));
      LockKeptByCommit(s, SyntaxCommitted(s.manager, c, sources, sourceRevision, s.docs.revision));
      LockKeptByFinish(t, id);
    case LoadBuilt(generation, files, _, _, program, sources, sourceRevision) =>
      LockKeptByCommit(s, LoadCommitted(s.manager, generation, files, program, sources, sourceRevision));
    case _ =>
  }

  lemma {:induction false} LockKeptByLoad(
    s: State, id: nat, disk: Sources, inWorkspace: bool, discovered: Option<set<Path>>, fails: bool)
    requires LockHeld(s) && id in s.tasks && (InAnalysis(s.tasks[id]) || s.tasks[id].LoadWaiting?)
    ensures LockHeld(Resume(s, id, disk, inWorkspace, discovered, fails))
  {
    LockKeptByFinish(s, id);
    match s.tasks[id]
    case LoadWaiting(generation, files) =>
      if s.analyzing.None? {
        var held := s.(analyzing := Some(id));
        assert forall x :: x in s.tasks ==> !InAnalysis(s.tasks[x]);
        LockKeptByContinue(held, id, LoadOverlays(generation, files, Reading(D.Texts(s.docs), s.docs.revision)));
      }
    case LoadBuilt(generation, files, _, _, program, sources, sourceRevision) =>
      LockKeptByCommit(s, LoadCommitted(s.manager, generation, files, program, sources, sourceRevision));
    case _ =>
  }

  lemma {:induction false} LockKept(s: State, action: Action)
    requires LockHeld(s) && Enabled(s, action)
    ensures LockHeld(Next(s, action))
  {
    match action
    case Advance(id, disk, inWorkspace, discovered, fails) =>
      if InAnalysis(s.tasks[id]) || s.tasks[id].LoadWaiting? {
        LockKeptByLoad(s, id, disk, inWorkspace, discovered, fails);
      } else {
        LockKeptByPublish(s, id, disk, inWorkspace, discovered, fails);
      }
    case _ => LockKeptByStart(s, action);
  }

  lemma {:induction false} DocumentsAreNewest(s: State)
    requires HistorySound(s)
    ensures NoNewerAnalysis(s.published, s.docs.revision)
  {
  }

  /** Publishing anything but an analysis, or an analysis by the lock's holder. */
  lemma {:induction false} PublishingKeepsOrder(published: seq<Snapshot>, snapshot: Snapshot)
    requires AnalysesInOrder(published)
    requires IsAnalysis(snapshot) ==> NoNewerAnalysis(published, snapshot.sourceRevision)
    ensures AnalysesInOrder(published + [snapshot])
    ensures !IsAnalysis(snapshot) ==>
              forall r :: NoNewerAnalysis(published, r) ==> NoNewerAnalysis(published + [snapshot], r)
  {
    var longer := published + [snapshot];
    forall r | !IsAnalysis(snapshot) && NoNewerAnalysis(published, r)
      ensures NoNewerAnalysis(longer, r)
    {
      forall i | 0 <= i < |longer| && IsAnalysis(longer[i])
        ensures longer[i].sourceRevision <= r
      {
        assert i < |published| && published[i] == longer[i];
      }
    }
  }

  lemma {:induction false} OrderKeptQuietly(s: State, action: Action)
    requires HistorySound(s) && Enabled(s, action) && AnalysisOrdered(s)
    requires Next(s, action).published == s.published
    ensures AnalysisOrdered(Next(s, action))
  {
    LockKept(s, action);
    var t := Next(s, action);
    forall id | id in t.tasks && ReadsForAnalysis(t.tasks[id])
      ensures NoNewerAnalysis(t.published, t.tasks[id].sourceRevision)
    {
      ReaderIsNewest(s, action, id);
    }
  }

  lemma {:induction false} ReaderIsNewest(s: State, action: Action, id: nat)
    requires HistorySound(s) && Enabled(s, action) && AnalysisOrdered(s)
    requires id in Next(s, action).tasks && ReadsForAnalysis(Next(s, action).tasks[id])
    ensures NoNewerAnalysis(s.published, Next(s, action).tasks[id].sourceRevision)
  {
    DocumentsAreNewest(s);
    ReaderComesFrom(s, action, id);
  }

  /** Such a load has just read the revision, or read it before. */
  lemma {:induction false} ReaderComesFrom(s: State, action: Action, id: nat)
    requires Enabled(s, action) && id in Next(s, action).tasks && ReadsForAnalysis(Next(s, action).tasks[id])
    ensures var at := Next(s, action).tasks[id].sourceRevision;
            at == s.docs.revision
            || (id in s.tasks && ReadsForAnalysis(s.tasks[id]) && s.tasks[id].sourceRevision == at)
  {
    if action.Advance? {
      assert id in s.tasks;
      if id != action.id {
        assert Next(s, action).tasks[id] == s.tasks[id];
      }
    } else {
      StartAddsNoReader(s, action, id);
    }
  }

  lemma {:induction false} StartAddsNoReader(s: State, action: Action, id: nat)
    requires Enabled(s, action) && !action.Advance?
    requires id in Start(s, action).tasks && ReadsForAnalysis(Start(s, action).tasks[id])
    ensures id in s.tasks && Start(s, action).tasks[id] == s.tasks[id]
  {
  }

  lemma {:induction false} OrderKeptPublishing(s: State, action: Action)
    requires Enabled(s, action) && AnalysisOrdered(s)
    requires Next(s, action).published != s.published
    ensures AnalysisOrdered(Next(s, action))
  {
    LockKept(s, action);
    OnlyCurrentBuildsArePublished(s, action);
    PublishingKeepsOrder(s.published, Next(s, action).manager.snapshot.value);
  }

  lemma {:induction false} AnalysisOrderKept(s: State, action: Action)
    requires HistorySound(s) && Enabled(s, action) && AnalysisOrdered(s)
    ensures AnalysisOrdered(Next(s, action))
  {
    if Next(s, action).published == s.published {
      OrderKeptQuietly(s, action);
    } else {
      OrderKeptPublishing(s, action);
    }
  }

  /** In every run compiler analyses are published in the order of the document
      revisions they analysed. */
  lemma {:induction false} AnalysesPublishInOrder(actions: seq<Action>)
    ensures AnalysesInOrder(After(INITIAL, actions).published)
  {
    AnalysisOrderAlongRuns(INITIAL, actions);
  }

  lemma {:induction false} AnalysisOrderAlongRuns(s: State, actions: seq<Action>)
    requires Invariant(s) && AnalysisOrdered(s)
    ensures AnalysisOrdered(After(s, actions))
    decreases |actions|
  {
    if actions != [] {
      if Enabled(s, actions[0]) {
        NextSound(s, actions[0]);
        AnalysisOrderKept(s, actions[0]);
        AnalysisOrderAlongRuns(Next(s, actions[0]), actions[1..]);
      } else {
        AnalysisOrderAlongRuns(s, actions[1..]);
      }
    }
  }
}
