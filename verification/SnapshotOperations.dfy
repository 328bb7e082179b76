/** What each operation of the analysis manager does when its own steps are not
    interleaved with others (src/pyflow/lsp/server.py): what it publishes, and what
    it leaves behind. */
module SnapshotOperations {
  import opened Wrappers
  import opened AnalysisManager
  import opened SnapshotProtocol
  import D = Documents

  /** The start of an operation and n further steps of its task. */
  function OwnSteps(s: State, start: Action, step: Action, n: nat): State {
    if n == 0 then Try(s, start) else Try(OwnSteps(s, start, step, n - 1), step)
  }

  lemma {:induction false} Unrolled(s: State, start: Action, step: Action, n: nat)
    ensures OwnSteps(s, start, step, 0) == Try(s, start)
    ensures forall k :: 0 < k <= n ==> OwnSteps(s, start, step, k) == Try(OwnSteps(s, start, step, k - 1), step)
  {
  }

  lemma {:induction false} FiveSteps(s: State, start: Action, step: Action)
    ensures OwnSteps(s, start, step, 5) == Try(Try(Try(Try(Try(Try(s, start), step), step), step), step), step)
  {
    Unrolled(s, start, step, 5);
    assert OwnSteps(s, start, step, 1) == Try(OwnSteps(s, start, step, 0), step);
    assert OwnSteps(s, start, step, 2) == Try(OwnSteps(s, start, step, 1), step);
    assert OwnSteps(s, start, step, 3) == Try(OwnSteps(s, start, step, 2), step);
    assert OwnSteps(s, start, step, 4) == Try(OwnSteps(s, start, step, 3), step);
  }

  lemma {:induction false} FourSteps(s: State, start: Action, step: Action)
    ensures OwnSteps(s, start, step, 4) == Try(Try(Try(Try(Try(s, start), step), step), step), step)
  {
    Unrolled(s, start, step, 4);
    assert OwnSteps(s, start, step, 1) == Try(OwnSteps(s, start, step, 0), step);
    assert OwnSteps(s, start, step, 2) == Try(OwnSteps(s, start, step, 1), step);
    assert OwnSteps(s, start, step, 3) == Try(OwnSteps(s, start, step, 2), step);
  }

  function Try(s: State, action: Action): State {
    if Enabled(s, action) then Next(s, action) else s
  }

  /** One more snapshot is published: these texts, over the given semantics. */
  ghost predicate PublishesOne(s: State, t: State, program: Program, stale: bool) {
    && t.manager.snapshot.Some?
    && t.published == s.published + [t.manager.snapshot.value]
    && t.manager.snapshot.value.program == program && t.manager.snapshot.value.stale == stale
    && t.manager.snapshot.value.sourceRevision == t.docs.revision
  }

  /** An accepted operation on a document publishes that document on a loaded
      manager, over the semantics it had, and nothing before the first load. */
  lemma {:induction false} MutationAlone(s: State, op: D.Operation, id: nat, disk: Sources, inWorkspace: bool)
    requires ManagerSound(s) && id !in s.tasks && s.analyzing != Some(id) && D.Step(s.docs, op).1.Accepted?
    ensures var t := OwnSteps(s, Mutate(op, id), Advance(id, disk, inWorkspace, None, false), 4);
            && t.docs == D.Step(s.docs, op).0 && t.tasks == s.tasks && t.analyzing == s.analyzing
            && (!s.manager.loaded ==> t.manager == s.manager && t.published == s.published)
            && (s.manager.loaded ==>
                  var base := s.manager.snapshot.value;
                  && PublishesOne(s, t, base.program, true)
                  && PathRead(t.manager.snapshot.value.sources, base.sources, op.path, D.Texts(t.docs), disk,
                              inWorkspace))
  {
    var start, step := Mutate(op, id), Advance(id, disk, inWorkspace, None, false);
    FourSteps(s, start, step);
    var t0 := Try(s, start);
    assert t0 == s.(docs := D.Step(s.docs, op).0, tasks := s.tasks[id := AfterMutation(op.path)]);
    if s.manager.loaded {
      var t1 := Try(t0, step);
      assert t1 == t0.(tasks := s.tasks[id := Publish(Some(op.path))]);
      PublicationAlone(t1, id, Some(op.path), disk, inWorkspace, None);
      assert t1.tasks - {id} == s.tasks;
    } else {
      assert Try(t0, step).tasks == s.tasks;
    }
  }

  /** A publication is captured, built and committed. */
  lemma {:induction false} PublicationAlone(
    s: State, id: nat, changed: Option<Path>, disk: Sources, inWorkspace: bool, discovered: Option<set<Path>>)
    requires s.manager.snapshot.Some? && !s.manager.closed && s.analyzing != Some(id)
    requires id in s.tasks && s.tasks[id] == Publish(changed)
    ensures var step := Advance(id, disk, inWorkspace, discovered, false);
            var t := Try(Try(Try(s, step), step), step);
            && PublishesOne(s, t, s.manager.snapshot.value.program, true)
            && PublicationRead(t.manager.snapshot.value.sources, Capture(s.manager).value, changed,
                               D.Texts(s.docs), disk, inWorkspace)
            && t.docs == s.docs && t.tasks == s.tasks - {id} && t.analyzing == s.analyzing
            && t.manager.files == s.manager.files && t.manager.generation == s.manager.generation
  {
    var step := Advance(id, disk, inWorkspace, discovered, false);
    var c, overlays := Capture(s.manager).value, D.Texts(s.docs);
    PublicationIsRead(c, changed, overlays, disk, inWorkspace);
    var sources := SyntaxSources(c, changed, overlays, disk, inWorkspace);
    var t1 := Try(s, step);
    assert t1 == s.(tasks := s.tasks[id := PublishCaptured(changed, c)]);
    var t2 := Try(t1, step);
    assert t2.tasks == s.tasks[id := PublishBuilt(changed, c, overlays, disk, inWorkspace, sources, s.docs.revision)];
    assert t2 == s.(tasks := t2.tasks);
    assert Try(t2, step).tasks == s.tasks - {id};
  }

  /** A refresh takes the discovered files and publishes the workspace with them. */
  lemma {:induction false} RefreshAlone(s: State, id: nat, disk: Sources, inWorkspace: bool, found: set<Path>)
    requires s.manager.snapshot.Some? && !s.manager.closed && id !in s.tasks && s.analyzing != Some(id)
    ensures var t := OwnSteps(s, Refresh(id), Advance(id, disk, inWorkspace, Some(found), false), 4);
            && PublishesOne(s, t, s.manager.snapshot.value.program, true)
            && FullyRead(t.manager.snapshot.value.sources, found, D.Texts(s.docs), disk)
            && t.manager.files == found && t.docs == s.docs && t.tasks == s.tasks
  {
    var start, step := Refresh(id), Advance(id, disk, inWorkspace, Some(found), false);
    FourSteps(s, start, step);
    var t0 := Try(s, start);
    assert t0 == s.(tasks := s.tasks[id := Refreshing(s.manager.generation)]);
    var t1 := Try(t0, step);
    assert t1 == s.(tasks := s.tasks[id := Publish(None)], manager := s.manager.(files := found));
    PublicationAlone(t1, id, None, disk, inWorkspace, Some(found));
    assert t1.tasks - {id} == s.tasks;
  }

  /** A load of sources starts a new generation and publishes all it is to list. */
  lemma {:induction false} SourceLoadAlone(s: State, files: set<Path>, id: nat, disk: Sources)
    requires id !in s.tasks && s.analyzing != Some(id)
    ensures var t := OwnSteps(s, Configure(files, id, true), Advance(id, disk, true, None, false), 3);
            && PublishesOne(s, t, EmptyProgram, false)
            && FullyRead(t.manager.snapshot.value.sources, files, D.Texts(s.docs), disk)
            && t.manager.files == files && t.manager.loaded && t.manager.generation == s.manager.generation + 1
            && t.docs == s.docs && t.tasks == s.tasks
  {
    var start, step := Configure(files, id, true), Advance(id, disk, true, None, false);
    SourcesAreRead(files, D.Texts(s.docs), disk);
    Unrolled(s, start, step, 3);
    SourceLoadSteps(s, Try(s, start), files, id, disk);
    assert OwnSteps(s, start, step, 1) == Try(OwnSteps(s, start, step, 0), step);
    assert OwnSteps(s, start, step, 2) == Try(OwnSteps(s, start, step, 1), step);
  }

  lemma {:induction false} SourceLoadSteps(s: State, before: State, files: set<Path>, id: nat, disk: Sources)
    requires id !in s.tasks && !before.manager.closed && before.analyzing != Some(id)
    requires before.tasks == s.tasks[id := SourceLoad(before.manager.generation, files)]
    ensures var step := Advance(id, disk, true, None, false);
            var t := Try(Try(Try(before, step), step), step);
            && t.manager.snapshot.Some? && t.published == before.published + [t.manager.snapshot.value]
            && t.manager.snapshot.value.sources == FullSources(files, D.Texts(before.docs), disk)
            && t.manager.snapshot.value.program == EmptyProgram && !t.manager.snapshot.value.stale
            && t.manager.snapshot.value.sourceRevision == before.docs.revision
            && t.manager.files == files && t.manager.loaded && t.manager.generation == before.manager.generation
            && t.docs == before.docs && t.tasks == s.tasks && t.analyzing == before.analyzing
  {
    var step := Advance(id, disk, true, None, false);
    var read := Reading(D.Texts(before.docs), before.docs.revision);
    var sources := FullSources(files, D.Texts(before.docs), disk);
    var built := LoadBuilt(before.manager.generation, files, read, disk, EmptyProgram, sources, before.docs.revision);
    var t1 := Try(before, step);
    assert t1 == before.(tasks := s.tasks[id := built]);
    var t2 := Try(t1, step);
    assert t2.tasks == s.tasks[id := PostCheck(before.docs.revision)];
    assert Try(t2, step).tasks == s.tasks;
  }

  /** A reload, when the analysis lock is free, publishes the program of the listed
      files it could read, and leaves the lock free. */
  lemma {:induction false} ReloadAlone(s: State, files: set<Path>, id: nat, disk: Sources)
    requires !s.manager.closed && id !in s.tasks && s.analyzing.None?
    ensures var t := OwnSteps(s, Reload(files, id), Advance(id, disk, true, None, false), 5);
            && t.manager.snapshot.Some? && PublishesOne(s, t, Extracted(t.manager.snapshot.value.sources), false)
            && ListedRead(t.manager.snapshot.value.sources, files, D.Texts(s.docs), disk)
            && t.manager.files == files && t.manager.loaded && t.manager.generation == s.manager.generation
            && t.docs == s.docs && t.tasks == s.tasks && t.analyzing.None?
  {
    var start, step := Reload(files, id), Advance(id, disk, true, None, false);
    SourcesAreRead(files, D.Texts(s.docs), disk);
    FiveSteps(s, start, step);
    LoadSteps(s, Try(s, start), files, id, disk);
  }

  /** The same when the load starts a new generation. */
  lemma {:induction false} ConfiguredLoadAlone(s: State, files: set<Path>, id: nat, disk: Sources)
    requires id !in s.tasks && s.analyzing.None?
    ensures var t := OwnSteps(s, Configure(files, id, false), Advance(id, disk, true, None, false), 5);
            && t.manager.snapshot.Some? && PublishesOne(s, t, Extracted(t.manager.snapshot.value.sources), false)
            && ListedRead(t.manager.snapshot.value.sources, files, D.Texts(s.docs), disk)
            && t.manager.files == files && t.manager.loaded && t.manager.generation == s.manager.generation + 1
            && t.docs == s.docs && t.tasks == s.tasks && t.analyzing.None?
  {
    var start, step := Configure(files, id, false), Advance(id, disk, true, None, false);
    SourcesAreRead(files, D.Texts(s.docs), disk);
    FiveSteps(s, start, step);
    LoadSteps(s, Try(s, start), files, id, disk);
  }

  lemma {:induction false} LoadSteps(s: State, before: State, files: set<Path>, id: nat, disk: Sources)
    requires id !in s.tasks && !before.manager.closed && before.analyzing.None?
    requires before.tasks == s.tasks[id := LoadWaiting(before.manager.generation, files)]
    ensures var step := Advance(id, disk, true, None, false);
            var t := Try(Try(Try(Try(Try(before, step), step), step), step), step);
            && t.manager.snapshot.Some? && t.published == before.published + [t.manager.snapshot.value]
            && t.manager.snapshot.value.sources == LoadedSources(files, D.Texts(before.docs), disk)
            && t.manager.snapshot.value.program == Extracted(t.manager.snapshot.value.sources)
            && !t.manager.snapshot.value.stale && t.manager.snapshot.value.sourceRevision == before.docs.revision
            && t.manager.files == files && t.manager.loaded && t.manager.generation == before.manager.generation
            && t.docs == before.docs && t.tasks == s.tasks && t.analyzing.None?
  {
    var step := Advance(id, disk, true, None, false);
    var read := Reading(D.Texts(before.docs), before.docs.revision);
    var t1 := Try(before, step);
    assert t1.tasks == s.tasks[id := LoadOverlays(before.manager.generation, files, read)];
    var t2 := Try(t1, step);
    assert t2.tasks == s.tasks[id := LoadBuilding(before.manager.generation, files, read, before.docs.revision)];
    var t3 := Try(t2, step);
    var t4 := Try(t3, step);
    assert t4.tasks == s.tasks[id := PostCheck(before.docs.revision)];
    assert Try(t4, step).tasks == s.tasks;
  }

  /** A compiler load that fails publishes nothing and frees the lock. */
  lemma {:induction false} FailedLoadAlone(s: State, files: set<Path>, id: nat, disk: Sources)
    requires id !in s.tasks && s.analyzing.None?
    ensures var t := OwnSteps(s, Reload(files, id), Advance(id, disk, true, None, true), 3);
            t == s
  {
    var start, step := Reload(files, id), Advance(id, disk, true, None, true);
    Unrolled(s, start, step, 3);
    var read := Reading(D.Texts(s.docs), s.docs.revision);
    assert OwnSteps(s, start, step, 1).tasks == s.tasks[id := LoadOverlays(s.manager.generation, files, read)];
    assert OwnSteps(s, start, step, 2).tasks
        == s.tasks[id := LoadBuilding(s.manager.generation, files, read, s.docs.revision)];
    assert OwnSteps(s, start, step, 3).tasks == s.tasks;
  }
}
