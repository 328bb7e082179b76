/** Do the published texts agree with the open documents? Revisions always agree
    in the end (`SnapshotProtocol`). For texts, each kind of publication has its
    exact condition below, and all hold when operations run one at a time. */
module SnapshotTexts {
  import opened Wrappers
  import opened AnalysisManager
  import opened SnapshotProtocol
  import D = Documents

  /** On every published path other than `except`, an open document's text is published. */
  ghost predicate Agrees(sources: Sources, overlays: Sources, except: set<Path>) {
    forall p :: p in overlays && p in sources && p !in except ==> sources[p] == overlays[p]
  }

  /** Every open workspace file and every open Python document is published. */
  ghost predicate Covers(sources: Sources, overlays: Sources, files: set<Path>) {
    forall p :: p in overlays && (p in files || IsPython(p)) ==> p in sources
  }

  function Exempt(changed: Option<Path>): set<Path> {
    if changed.Some? then {changed.value} else {}
  }

  // ---------------------------------------------------- one publication

  /** A built publication has the sources that its reads call for. */
  ghost predicate BuildSound(task: Task) {
    task.PublishBuilt? ==>
      PublicationRead(task.sources, task.captured, task.changed, task.overlays, task.disk, task.inWorkspace)
  }

  ghost predicate BuildsSound(s: State) {
    forall id :: id in s.tasks ==> BuildSound(s.tasks[id])
  }

  lemma {:induction false} BuildsStaySound(s: State, action: Action)
    requires Enabled(s, action) && BuildsSound(s)
    ensures BuildsSound(Next(s, action))
  {
    forall id | id in Next(s, action).tasks
      ensures BuildSound(Next(s, action).tasks[id])
    {
      if !(id in s.tasks && Next(s, action).tasks[id] == s.tasks[id]) && Next(s, action).tasks[id].PublishBuilt? {
        NewBuild(s, action, id);
      }
    }
  }

  /** A step that leaves a new built publication has just read its sources. */
  lemma {:induction false} NewBuild(s: State, action: Action, id: nat)
    requires Enabled(s, action) && id in Next(s, action).tasks && Next(s, action).tasks[id].PublishBuilt?
    requires !(id in s.tasks && Next(s, action).tasks[id] == s.tasks[id])
    ensures BuildSound(Next(s, action).tasks[id])
  {
    if action.Advance? && s.tasks[action.id].PublishCaptured? {
      var PublishCaptured(changed, c) := s.tasks[action.id];
      PublicationIsRead(c, changed, D.Texts(s.docs), action.disk, action.inWorkspace);
    }
  }

  lemma {:induction false} BuildsAlongRuns(s: State, actions: seq<Action>)
    requires BuildsSound(s)
    ensures BuildsSound(After(s, actions))
    decreases |actions|
  {
    if actions != [] {
      if Enabled(s, actions[0]) {
        BuildsStaySound(s, actions[0]);
        BuildsAlongRuns(Next(s, actions[0]), actions[1..]);
      } else {
        BuildsAlongRuns(s, actions[1..]);
      }
    }
  }

  lemma {:induction false} ReachableIsSound(actions: seq<Action>)
    ensures Invariant(After(INITIAL, actions)) && BuildsSound(After(INITIAL, actions))
  {
    InvariantAlongRuns(INITIAL, actions);
    BuildsAlongRuns(INITIAL, actions);
  }

  /** The action finishes this task by publishing a snapshot. */
  ghost predicate Publishes(s: State, action: Action, task: Task) {
    && Enabled(s, action) && action.Advance? && s.tasks[action.id] == task
    && Next(s, action).published != s.published
  }

  /** The texts published last. */
  function Published(s: State): Sources {
    if s.manager.snapshot.Some? then s.manager.snapshot.value.sources else map[]
  }

  /** The texts published last agree with the open documents. */
  ghost predicate PublishedAgree(s: State) {
    s.manager.snapshot.Some? && Agrees(s.manager.snapshot.value.sources, D.Texts(s.docs), {})
  }

  /** The texts published last include the workspace's open documents. */
  ghost predicate PublishedCover(s: State, files: set<Path>) {
    s.manager.snapshot.Some? && Covers(s.manager.snapshot.value.sources, D.Texts(s.docs), files)
  }

  /** In every run, exactly when the patch of one file leaves all published texts
      in agreement: when the captured snapshot agreed on every other file. */
  lemma {:induction false} PatchAgreesExactlyWhenItsBaseDoes(
    earlier: seq<Action>, action: Action, task: Task, path: Path)
    requires Publishes(After(INITIAL, earlier), action, task)
    requires task.PublishBuilt? && task.changed == Some(path)
    ensures var s := After(INITIAL, earlier);
            PathRead(Published(Next(s, action)), task.captured.base.sources, path, D.Texts(s.docs), task.disk,
                     task.inWorkspace)
    ensures var s := After(INITIAL, earlier);
            PublishedAgree(Next(s, action)) <==> Agrees(task.captured.base.sources, D.Texts(s.docs), {path})
  {
    ReachableIsSound(earlier);
    assert TaskSound(After(INITIAL, earlier), task);
  }

  /** In every run a publication of all files leaves every open workspace and
      Python document published with its text. */
  lemma {:induction false} FullPublicationAgrees(earlier: seq<Action>, action: Action, task: Task)
    requires Publishes(After(INITIAL, earlier), action, task)
    requires task.PublishBuilt? && task.changed.None?
    ensures var s := Next(After(INITIAL, earlier), action);
            FullyRead(Published(s), task.captured.files, D.Texts(s.docs), task.disk)
    ensures var s := Next(After(INITIAL, earlier), action); PublishedAgree(s) && PublishedCover(s, task.captured.files)
  {
    ReachableIsSound(earlier);
    assert TaskSound(After(INITIAL, earlier), task);
  }

  /** In every run a source load, at whatever revision, publishes all it read. */
  lemma {:induction false} SourceLoadPublishes(earlier: seq<Action>, action: Action, task: Task)
    requires Publishes(After(INITIAL, earlier), action, task)
    requires task.LoadBuilt? && task.program.EmptyProgram?
    ensures FullyRead(Published(Next(After(INITIAL, earlier), action)), task.files, task.read.overlays, task.disk)
  {
    ReachableIsSound(earlier);
    assert TaskSound(After(INITIAL, earlier), task);
    SourcesAreRead(task.files, task.read.overlays, task.disk);
  }

  /** In every run a source load committed at the documents' revision leaves every
      open listed and Python document published with its text. */
  lemma {:induction false} CurrentSourceLoadAgrees(earlier: seq<Action>, action: Action, task: Task)
    requires Publishes(After(INITIAL, earlier), action, task)
    requires task.LoadBuilt? && task.program.EmptyProgram?
    requires task.sourceRevision == After(INITIAL, earlier).docs.revision
    ensures var s := Next(After(INITIAL, earlier), action);
            FullyRead(Published(s), task.files, D.Texts(s.docs), task.disk)
    ensures var s := Next(After(INITIAL, earlier), action); PublishedAgree(s) && PublishedCover(s, task.files)
  {
    ReachableIsSound(earlier);
    assert TaskSound(After(INITIAL, earlier), task);
    SourceLoadPublishes(earlier, action, task);
  }

  /** What a compiler load read of the listed files, overlay before disk, is the
      current text of every one of them that is open. */
  ghost predicate ReadCurrentTexts(files: set<Path>, overlays: Sources, disk: Sources, current: Sources) {
    forall p :: p in current && p in files ==>
      if p in overlays then overlays[p] == current[p] else p in disk ==> disk[p] == current[p]
  }

  /** In every run, exactly when a compiler load publishes texts that agree, at
      whatever revision it claims: when what it read is current. */
  lemma {:induction false} CompilerLoadAgreesExactly(earlier: seq<Action>, action: Action, task: Task)
    requires Publishes(After(INITIAL, earlier), action, task)
    requires task.LoadBuilt? && task.program.Extracted?
    ensures ListedRead(Published(Next(After(INITIAL, earlier), action)), task.files, task.read.overlays, task.disk)
    ensures var s := After(INITIAL, earlier);
            PublishedAgree(Next(s, action)) <==>
              ReadCurrentTexts(task.files, task.read.overlays, task.disk, D.Texts(s.docs))
  {
    ReachableIsSound(earlier);
    assert TaskSound(After(INITIAL, earlier), task);
    SourcesAreRead(task.files, task.read.overlays, task.disk);
    LoadedSourcesAgreeExactly(task.files, task.read.overlays, task.disk, D.Texts(After(INITIAL, earlier).docs));
  }

  lemma {:induction false} LoadedSourcesAgreeExactly(
    files: set<Path>, overlays: Sources, disk: Sources, current: Sources)
    ensures Agrees(LoadedSources(files, overlays, disk), current, {})
         <==> ReadCurrentTexts(files, overlays, disk, current)
  {
    var sources := LoadedSources(files, overlays, disk);
    if Agrees(sources, current, {}) {
      forall p | p in current && p in files
        ensures if p in overlays then overlays[p] == current[p] else p in disk ==> disk[p] == current[p]
      {
        if p in overlays || p in disk {
          assert p in sources;
        }
      }
    }
  }

  /** In particular when no operation on the documents was accepted between the
      load's two reads, and none since. */
  lemma {:induction false} LoadReadTogetherAgrees(earlier: seq<Action>, action: Action, task: Task)
    requires Publishes(After(INITIAL, earlier), action, task)
    requires task.LoadBuilt? && task.program.Extracted?
    requires task.read.at == task.sourceRevision == After(INITIAL, earlier).docs.revision
    ensures PublishedAgree(Next(After(INITIAL, earlier), action))
  {
    ReachableIsSound(earlier);
    assert TaskSound(After(INITIAL, earlier), task);
    CompilerLoadAgreesExactly(earlier, action, task);
  }

  lemma {:induction false} FullSourcesAgree(files: set<Path>, overlays: Sources, disk: Sources)
    ensures Agrees(FullSources(files, overlays, disk), overlays, {})
    ensures Agrees(LoadedSources(files, overlays, disk), overlays, {})
  {
  }

  // --------------------------------------------------- one operation at a time

  /** A new operation starts only when none is in flight. */
  predicate Alone(s: State, action: Action) {
    Enabled(s, action) && (action.Advance? || s.tasks == map[])
  }

  function AfterAlone(s: State, actions: seq<Action>): State
    decreases |actions|
  {
    if actions == [] then s
    else AfterAlone(if Alone(s, actions[0]) then Next(s, actions[0]) else s, actions[1..])
  }

  ghost predicate SnapshotAgrees(s: State, except: set<Path>) {
    s.manager.snapshot.Some? ==> Agrees(s.manager.snapshot.value.sources, D.Texts(s.docs), except)
  }

  ghost predicate CaptureIsCurrent(s: State, c: Captured) {
    s.manager.snapshot == Some(c.base) && c.generation == s.manager.generation && !s.manager.closed
  }

  /** What is known while a single operation is in flight. */
  ghost predicate TaskAgrees(s: State, task: Task) {
    match task
    case AfterMutation(path) => SnapshotAgrees(s, {path})
    case Publish(changed) => changed.Some? ==> SnapshotAgrees(s, Exempt(changed))
    case PublishCaptured(changed, c) =>
      CaptureIsCurrent(s, c) && (changed.Some? ==> SnapshotAgrees(s, Exempt(changed)))
    case PublishBuilt(changed, c, overlays, _, _, sources, sourceRevision) =>
      && CaptureIsCurrent(s, c) && sourceRevision == s.docs.revision
      && Agrees(sources, D.Texts(s.docs), {})
    case LoadOverlays(_, _, read) => SnapshotAgrees(s, {}) && read.overlays == D.Texts(s.docs)
    case LoadBuilding(_, _, read, sourceRevision) =>
      SnapshotAgrees(s, {}) && read.overlays == D.Texts(s.docs) && sourceRevision == s.docs.revision
    case LoadBuilt(_, _, _, _, _, sources, sourceRevision) =>
      SnapshotAgrees(s, {}) && Agrees(sources, D.Texts(s.docs), {}) && sourceRevision == s.docs.revision
    case PostCheck(sourceRevision) => SnapshotAgrees(s, {}) && sourceRevision == s.docs.revision
    case _ => SnapshotAgrees(s, {})
  }

  ghost predicate AtMostOne(s: State) {
    forall x, y :: x in s.tasks && y in s.tasks ==> x == y
  }

  ghost predicate TextsSettled(s: State) {
    && AtMostOne(s)
    && (s.tasks == map[] ==> SnapshotAgrees(s, {}))
    && (forall id :: id in s.tasks ==> TaskAgrees(s, s.tasks[id]))
  }

  lemma {:induction false} MutationExempts(s: State, op: D.Operation)
    requires SnapshotAgrees(s, {}) && D.Step(s.docs, op).1.Accepted?
    ensures SnapshotAgrees(s.(docs := D.Step(s.docs, op).0), {op.path})
  {
    forall p | p != op.path
      ensures D.DocumentAt(D.Step(s.docs, op).0, p) == D.DocumentAt(s.docs, p)
    {
      D.StepOnPath(s.docs, op, p);
    }
    var before, after := D.Texts(s.docs), D.Texts(D.Step(s.docs, op).0);
    forall p | p in after && p != op.path
      ensures p in before && before[p] == after[p]
    {
      assert D.DocumentAt(s.docs, p) == D.DocumentAt(D.Step(s.docs, op).0, p);
    }
  }

  lemma {:induction false} StartSettled(s: State, action: Action)
    requires TextsSettled(s) && Alone(s, action) && !action.Advance?
    ensures TextsSettled(Next(s, action))
  {
    if action.Mutate? && D.Step(s.docs, action.op).1.Accepted? {
      MutationExempts(s, action.op);
    }
  }

  /** A finished task leaves no other. */
  lemma {:induction false} LastFinishes(s: State, id: nat)
    requires AtMostOne(s) && id in s.tasks
    ensures Finish(s, id).tasks == map[]
  {
  }

  lemma {:induction false} PublishSettled(s: State, action: Action)
    requires TextsSettled(s) && ManagerSound(s) && action.Advance? && Enabled(s, action)
    requires s.tasks[action.id].Publish? || s.tasks[action.id].PublishCaptured? || s.tasks[action.id].PublishBuilt?
    ensures TextsSettled(Next(s, action))
  {
    LastFinishes(s, action.id);
    assert TaskAgrees(s, s.tasks[action.id]);
    if s.tasks[action.id].PublishCaptured? {
      var PublishCaptured(changed, c) := s.tasks[action.id];
      PublicationIsRead(c, changed, D.Texts(s.docs), action.disk, action.inWorkspace);
    }
  }

  lemma {:induction false} LoadSettled(s: State, action: Action)
    requires TextsSettled(s) && ManagerSound(s) && action.Advance? && Enabled(s, action)
    requires !(s.tasks[action.id].Publish? || s.tasks[action.id].PublishCaptured? || s.tasks[action.id].PublishBuilt?)
    ensures TextsSettled(Next(s, action))
  {
    LastFinishes(s, action.id);
    assert TaskAgrees(s, s.tasks[action.id]);
    match s.tasks[action.id]
    case SourceLoad(_, files) => FullSourcesAgree(files, D.Texts(s.docs), action.disk);
    case LoadBuilding(_, files, read, _) => FullSourcesAgree(files, read.overlays, action.disk);
    case _ =>
  }

  lemma {:induction false} SettledAlongRuns(s: State, actions: seq<Action>)
    requires Invariant(s) && TextsSettled(s)
    ensures TextsSettled(AfterAlone(s, actions))
    decreases |actions|
  {
    if actions != [] {
      var action := actions[0];
      if Alone(s, action) {
        NextSound(s, action);
        if !action.Advance? {
          StartSettled(s, action);
        } else if s.tasks[action.id].Publish? || s.tasks[action.id].PublishCaptured?
          || s.tasks[action.id].PublishBuilt? {
          PublishSettled(s, action);
        } else {
          LoadSettled(s, action);
        }
        SettledAlongRuns(Next(s, action), actions[1..]);
      } else {
        SettledAlongRuns(s, actions[1..]);
      }
    }
  }

  /** When operations run one at a time, every published text of an open document
      is the document's text whenever no operation is in flight. */
  lemma {:induction false} SequentialTextsAgree(actions: seq<Action>)
    ensures var s := AfterAlone(INITIAL, actions);
            s.tasks == map[] && s.manager.snapshot.Some? ==>
              Agrees(s.manager.snapshot.value.sources, D.Texts(s.docs), {})
  {
    SettledAlongRuns(INITIAL, actions);
  }
}
