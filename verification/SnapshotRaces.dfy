/** Concrete interleavings that end with an edit missing from the published
    texts although revisions agree: why `SnapshotTexts` asks for operations that
    run one at a time. */
module SnapshotRaces {
  import opened Wrappers
  import opened AnalysisManager
  import opened SnapshotProtocol
  import opened SnapshotTexts
  import D = Documents

  function Do(s: State, action: Action): State {
    if Enabled(s, action) then Next(s, action) else s
  }

  lemma {:induction false} AfterAppend(s: State, actions: seq<Action>, action: Action)
    ensures After(s, actions + [action]) == Do(After(s, actions), action)
    decreases |actions|
  {
    if actions == [] {
      assert [action][1..] == [];
    } else {
      assert (actions + [action])[1..] == actions[1..] + [action];
      AfterAppend(Do(s, actions[0]), actions[1..], action);
    }
  }

  ghost predicate Reached(s: State, t: State) {
    exists actions :: After(s, actions) == t
  }

  lemma {:induction false} Step(s: State, t: State, action: Action)
    requires Reached(s, t)
    ensures Reached(s, Do(t, action))
  {
    var actions :| After(s, actions) == t;
    AfterAppend(s, actions, action);
  }

  function Edit(path: Path, text: string): D.Operation {
    D.Open(path, text, D.NoVersion)
  }

  function Resumed(id: nat, disk: Sources): Action {
    Advance(id, disk, true, None, false)
  }

  /** A loaded manager with nothing in flight. */
  ghost predicate Idle(s: State) {
    s.tasks == map[] && s.manager.snapshot.Some? && s.manager.loaded && !s.manager.closed && s.analyzing.None?
  }

  /** Nothing is in flight, the snapshot claims the documents' revision, and yet
      it publishes another text than an open document has. */
  ghost predicate LostEdit(t: State, path: Path) {
    && t.tasks == map[] && t.manager.snapshot.Some?
    && t.manager.snapshot.value.sourceRevision == t.docs.revision
    && path in D.Texts(t.docs) && path in t.manager.snapshot.value.sources
    && t.manager.snapshot.value.sources[path] != D.Texts(t.docs)[path]
  }

  // -------------------------------------------------- two concurrent edits

  /** Both edits have captured the snapshot that neither of them changed. */
  lemma {:induction false} BothCaptured(s: State, a: Path, b: Path, textA: string, textB: string) returns (t: State)
    requires Idle(s)
    ensures Reached(s, t)
    ensures t.docs == D.Overlays(
                        s.docs.documents[a := D.Document(textA, D.NoVersion)][b := D.Document(textB, D.NoVersion)],
                        s.docs.revision + 2)
    ensures t.manager == s.manager && t.analyzing.None?
    ensures var c := Captured(s.manager.snapshot.value, s.manager.generation, s.manager.files);
            t.tasks == map[1 := PublishCaptured(Some(a), c), 2 := PublishCaptured(Some(b), c)]
  {
    assert After(s, []) == s;
    t := s;
    Step(s, t, Mutate(Edit(a, textA), 1));
    t := Do(t, Mutate(Edit(a, textA), 1));
    Step(s, t, Mutate(Edit(b, textB), 2));
    t := Do(t, Mutate(Edit(b, textB), 2));
    Step(s, t, Resumed(1, map[]));
    t := Do(t, Resumed(1, map[]));
    Step(s, t, Resumed(2, map[]));
    t := Do(t, Resumed(2, map[]));
    Step(s, t, Resumed(1, map[]));
    t := Do(t, Resumed(1, map[]));
    Step(s, t, Resumed(2, map[]));
    t := Do(t, Resumed(2, map[]));
  }

  /** From every idle state, two overlapping edits of different published files
      can end with the first edit lost: the second publication patches its own
      path onto the snapshot that both captured. */
  lemma {:induction false} ConcurrentEditsLoseText(
    s: State, a: Path, b: Path, textA: string, textB: string) returns (t: State)
    requires Idle(s) && a != b
    requires a in s.manager.snapshot.value.sources && s.manager.snapshot.value.sources[a] != textA
    ensures Reached(s, t) && LostEdit(t, a)
  {
    t := BothCaptured(s, a, b, textA, textB);
    Step(s, t, Resumed(1, map[]));
    t := Do(t, Resumed(1, map[]));
    Step(s, t, Resumed(1, map[]));
    t := Do(t, Resumed(1, map[]));
    assert t.tasks.Keys == {2};
    Step(s, t, Resumed(2, map[]));
    t := Do(t, Resumed(2, map[]));
    Step(s, t, Resumed(2, map[]));
    t := Do(t, Resumed(2, map[]));
    assert t.tasks.Keys == {};
  }

  // --------------------------------------------- an edit inside a load's reads

  /** An edit runs to its publication beside a task that is in flight. */
  lemma {:induction false} EditBeside(s: State, before: State, a: Path, text: string) returns (t: State)
    requires Reached(s, before)
    requires before.tasks.Keys == {1} && before.manager.loaded && before.manager.snapshot.Some?
             && !before.manager.closed
    requires before.analyzing == Some(1)
    ensures Reached(s, t)
    ensures t.docs == D.Overlays(before.docs.documents[a := D.Document(text, D.NoVersion)], before.docs.revision + 1)
    ensures t.tasks == before.tasks && t.analyzing == Some(1)
    ensures t.manager.generation == before.manager.generation && !t.manager.closed && t.manager.loaded
    ensures t.manager.snapshot.Some? && t.manager.snapshot.value.sourceRevision == t.docs.revision
    ensures t.published == before.published + [t.manager.snapshot.value]
  {
    t := before;
    Step(s, t, Mutate(Edit(a, text), 2));
    t := Do(t, Mutate(Edit(a, text), 2));
    Step(s, t, Resumed(2, map[]));
    t := Do(t, Resumed(2, map[]));
    Step(s, t, Resumed(2, map[]));
    t := Do(t, Resumed(2, map[]));
    Step(s, t, Resumed(2, map[]));
    t := Do(t, Resumed(2, map[]));
    Step(s, t, Resumed(2, map[]));
    t := Do(t, Resumed(2, map[]));
    assert t.tasks == before.tasks;
  }

  /** A reload up to its read of the overlays. */
  lemma {:induction false} ReloadReads(s: State, files: set<Path>) returns (t: State)
    requires Idle(s)
    ensures Reached(s, t)
    ensures var read := Reading(D.Texts(s.docs), s.docs.revision);
            t == s.(tasks := map[1 := LoadOverlays(s.manager.generation, files, read)], analyzing := Some(1))
  {
    assert After(s, []) == s;
    Step(s, s, Reload(files, 1));
    t := Do(s, Reload(files, 1));
    Step(s, t, Resumed(1, map[]));
    t := Do(t, Resumed(1, map[]));
    assert t.tasks == map[1 := LoadOverlays(s.manager.generation, files, Reading(D.Texts(s.docs), s.docs.revision))];
  }

  /** A load that has read overlays and a later revision is built and commits. */
  lemma {:induction false} LoadCommits(
    s: State, before: State, files: set<Path>, read: Reading, disk: Sources) returns (t: State)
    requires Reached(s, before) && before.tasks == map[1 := LoadOverlays(before.manager.generation, files, read)]
    requires !before.manager.closed
    ensures Reached(s, t) && t.docs == before.docs && t.tasks == map[1 := PostCheck(t.docs.revision)]
    ensures t.manager.snapshot.Some? && t.manager.snapshot.value.sourceRevision == t.docs.revision
    ensures t.manager.snapshot.value.sources == LoadedSources(files, read.overlays, disk)
  {
    Step(s, before, Resumed(1, disk));
    t := Do(before, Resumed(1, disk));
    assert t.tasks == map[1 := LoadBuilding(before.manager.generation, files, read, before.docs.revision)];
    Step(s, t, Resumed(1, disk));
    t := Do(t, Resumed(1, disk));
    Step(s, t, Resumed(1, disk));
    t := Do(t, Resumed(1, disk));
    assert t.tasks == map[1 := PostCheck(t.docs.revision)];
  }

  /** Overlays and revision are read one after the other, so a load can analyse a
      text from the disk and claim the revision of the edit it did not see; the
      check after its commit then finds nothing to repair. */
  lemma {:induction false} LoadCanMissAnEdit(
    s: State, files: set<Path>, disk: Sources, a: Path, text: string) returns (t: State)
    requires Idle(s)
    requires a in files && a in disk && a !in s.docs.documents && disk[a] != text
    ensures Reached(s, t) && LostEdit(t, a)
  {
    t := ReloadReads(s, files);
    t := EditBeside(s, t, a, text);
    t := LoadCommits(s, t, files, Reading(D.Texts(s.docs), s.docs.revision), disk);
    Step(s, t, Resumed(1, disk));
    t := Do(t, Resumed(1, disk));
    assert t.tasks.Keys == {};
  }

  /** Although the comment at server.py:291-293 says otherwise, a load can publish an
      older revision after a newer one, when an edit was published while it was
      building; the revision check after the commit then still owes a repair. */
  lemma {:induction false} LoadCanOverwriteNewer(
    s: State, files: set<Path>, disk: Sources, a: Path, text: string) returns (t: State)
    requires Idle(s)
    ensures Reached(s, t)
    ensures |t.published| >= 2
            && t.published[|t.published| - 1].sourceRevision < t.published[|t.published| - 2].sourceRevision
    ensures exists id :: id in t.tasks && Owes(t, t.tasks[id])
  {
    t := ReloadReads(s, files);
    Step(s, t, Resumed(1, disk));
    t := Do(t, Resumed(1, disk));
    assert t.tasks.Keys == {1};
    t := EditBeside(s, t, a, text);
    t := OldLoadCommits(s, t, files, t.tasks[1].read, t.tasks[1].sourceRevision, disk);
  }

  /** A load that is building an older revision ends, is committed and owes a repair. */
  lemma {:induction false} OldLoadCommits(
    s: State, before: State, files: set<Path>, read: Reading, sourceRevision: nat, disk: Sources) returns (t: State)
    requires Reached(s, before)
    requires before.tasks == map[1 := LoadBuilding(before.manager.generation, files, read, sourceRevision)]
    requires !before.manager.closed && sourceRevision < before.docs.revision
    ensures Reached(s, t) && 1 in t.tasks && Owes(t, t.tasks[1])
    ensures |t.published| == |before.published| + 1 && before.published <= t.published
    ensures t.published[|before.published|].sourceRevision == sourceRevision
  {
    Step(s, before, Resumed(1, disk));
    t := Do(before, Resumed(1, disk));
    Step(s, t, Resumed(1, disk));
    t := Do(t, Resumed(1, disk));
  }
}
