/** Pushing diagnostics for open documents (src/pyflow/lsp/lsp_handler.py): one
    epoch and at most one publish task per document. Tasks are cooperative, so a
    step runs from one suspension point to the next. */
module PublishEpochs {
  import opened Wrappers
  import Identifiers
  import D = Documents

  type Uri = string
  type TaskId = nat
  type Version = Option<int>

  /** `Created`: not yet run. `Sleeping`: in the debounce delay. `Diagnosing`: its
      document's version has been read and diagnostics are being computed. */
  datatype Phase = Created | Sleeping | Diagnosing(version: Option<Version>) | Finished

  datatype Task = Task(uri: Uri, epoch: nat, phase: Phase, cancelled: bool)

  /** A `textDocument/publishDiagnostics` notification; the empty list of a close
      is told apart from computed diagnostics. */
  datatype Push = Diagnostics(uri: Uri, items: nat, version: Version) | Cleared(uri: Uri)

  /** `pushes`: the client wants notifications; `versions`: with versions. The
      opens still waiting for a first load are kept in `opening`. */
  datatype State = State(
    pushes: bool, versions: bool, shutdown: bool, open: map<Uri, Version>, epochs: map<Uri, nat>,
    table: map<Uri, TaskId>, tasks: map<TaskId, Task>, opening: map<TaskId, (Uri, Version)>, output: seq<Push>)

  /** How a running task reaches its next suspension point or its end. */
  datatype Outcome = Suspends | Fails | Completes(items: nat)

  /** `accepted` says whether the document store took the mutation; `id` names the
      publish task an action may create. */
  datatype Action =
    | Open(uri: Uri, version: Version, accepted: bool, id: TaskId)
    | OpenUnloaded(uri: Uri, version: Version, id: TaskId)
    | FinishOpen(waiting: TaskId, id: TaskId)
    | Change(uri: Uri, version: Version, accepted: bool, id: TaskId)
    | Save(uri: Uri, id: TaskId)                       // also one turn of the loop after a refresh
    | Close(uri: Uri)
    | Stop(shutdown: bool)
    | Run(id: TaskId, outcome: Outcome)

  function EpochOf(s: State, uri: Uri): nat {
    if uri in s.epochs then s.epochs[uri] else 0
  }

  function OpenVersion(s: State, uri: Uri): Option<Version> {
    if uri in s.open then Some(s.open[uri]) else None
  }

  /** Cancelling the publish task a document has in the table. */
  function CancelPending(s: State, uri: Uri): State {
    if uri in s.table && s.table[uri] in s.tasks then
      s.(tasks := s.tasks[s.table[uri] := s.tasks[s.table[uri]].(cancelled := true)])
    else s
  }

  /** `_schedule_publish`. */
  function Scheduled(s: State, uri: Uri, id: TaskId): State {
    if !s.pushes || s.shutdown then s
    else
      var epoch := EpochOf(s, uri) + 1;
      var cancelled := CancelPending(s, uri);
      cancelled.(epochs := s.epochs[uri := epoch], table := s.table[uri := id],
                 tasks := cancelled.tasks[id := Task(uri, epoch, Created, false)])
  }

  /** `_handle_did_close`. */
  function Closed(s: State, uri: Uri): State {
    var cancelled := CancelPending(s, uri);
    cancelled.(open := s.open - {uri}, epochs := s.epochs[uri := EpochOf(s, uri) + 1], table := s.table - {uri},
               output := if s.pushes then s.output + [Cleared(uri)] else s.output)
  }

  /** The publish part of `_stop_semantic_refresh`. */
  function Stopped(s: State, shutdown: bool): State {
    s.(shutdown := s.shutdown || shutdown, table := map[],
       tasks := map id | id in s.tasks ::
         if s.tasks[id].uri !in s.table || s.table[s.tasks[id].uri] != id then s.tasks[id]
         else s.tasks[id].(cancelled := true))
  }

  /** The `finally` block: a task withdraws the table entry that is its own. */
  function Ended(s: State, id: TaskId, task: Task): (r: State)
    ensures r.open == s.open && r.opening == s.opening && r.pushes == s.pushes && r.shutdown == s.shutdown
    ensures s.table == map[] ==> r.table == map[]
  {
    s.(tasks := s.tasks[id := task.(phase := Finished)],
       table := if task.uri in s.table && s.table[task.uri] == id then s.table - {task.uri} else s.table)
  }

  /** The check before the write, and the write. */
  function Pushed(s: State, task: Task, version: Option<Version>, items: nat): (r: State)
    ensures r.open == s.open && r.opening == s.opening && r.pushes == s.pushes && r.shutdown == s.shutdown
    ensures s.table == map[] ==> r.table == map[]
  {
    if task.uri !in s.open || EpochOf(s, task.uri) != task.epoch || s.shutdown then s
    else
      s.(output := s.output + [Diagnostics(task.uri, items, if s.versions then version.GetOr(None) else None)])
  }

  function Diagnosed(s: State, id: TaskId, task: Task, version: Option<Version>, o: Outcome): (r: State)
    ensures r.open == s.open && r.opening == s.opening && r.pushes == s.pushes && r.shutdown == s.shutdown
    ensures s.table == map[] ==> r.table == map[]
  {
    match o
    case Suspends => s.(tasks := s.tasks[id := task.(phase := Diagnosing(version))])
    case Fails => Ended(s, id, task)
    case Completes(items) => Ended(Pushed(s, task, version, items), id, task)
  }

  predicate Live(s: State, id: TaskId) {
    id in s.tasks && !s.tasks[id].phase.Finished?
  }

  /** A task cancelled before its first step never runs, not even its `finally`. */
  function Ran(s: State, id: TaskId, o: Outcome): (r: State)
    requires Live(s, id)
    ensures r.open == s.open && r.opening == s.opening && r.pushes == s.pushes && r.shutdown == s.shutdown
    ensures s.table == map[] ==> r.table == map[]
  {
    var task := s.tasks[id];
    if task.cancelled then
      if task.phase.Created? then s.(tasks := s.tasks[id := task.(phase := Finished)]) else Ended(s, id, task)
    else
      match task.phase
      case Created => s.(tasks := s.tasks[id := task.(phase := Sleeping)])
      case Sleeping => Diagnosed(s, id, task, OpenVersion(s, task.uri), o)
      case Diagnosing(version) => Diagnosed(s, id, task, version, o)
  }

  function Opened(s: State, uri: Uri, version: Version, id: TaskId): State {
    Scheduled(s.(open := s.open[uri := version]), uri, id)
  }

  predicate IsNew(s: State, id: TaskId) {
    id !in s.tasks && id !in s.opening
  }

  predicate Enabled(s: State, a: Action) {
    match a
    case Open(_, _, _, id) => IsNew(s, id)
    case OpenUnloaded(_, _, id) => IsNew(s, id)
    case FinishOpen(waiting, id) => waiting in s.opening && IsNew(s, id)
    case Change(_, _, _, id) => IsNew(s, id)
    case Save(_, id) => IsNew(s, id)
    case Run(id, _) => Live(s, id)
    case _ => true
  }

  function Next(s: State, a: Action): State
    requires Enabled(s, a)
  {
    match a
    case Open(uri, version, accepted, id) => if accepted then Opened(s, uri, version, id) else s
    case OpenUnloaded(uri, version, id) => s.(opening := s.opening[id := (uri, version)])
    case FinishOpen(waiting, id) =>
      var (uri, version) := s.opening[waiting];
      Opened(s.(opening := s.opening - {waiting}), uri, version, id)
    case Change(uri, version, accepted, id) => if accepted && uri in s.open then Opened(s, uri, version, id) else s
    case Save(uri, id) => if uri in s.open then Scheduled(s, uri, id) else s
    case Close(uri) => Closed(s, uri)
    case Stop(shutdown) => Stopped(s, shutdown)
    case Run(id, o) => Ran(s, id, o)
  }

  function Start(pushes: bool, versions: bool): State {
    State(pushes, versions, false, map[], map[], map[], map[], map[], [])
  }

  function After(s: State, actions: seq<Action>): State
    decreases |actions|
  {
    if actions == [] then s
    else After(if Enabled(s, actions[0]) then Next(s, actions[0]) else s, actions[1..])
  }

  // -------------------------------------------------------------- invariant

  /** A table entry is a live, un-cancelled task of that document, with the latest
      epoch; once it diagnoses, the version it read is the document's version. */
  ghost predicate EntryOk(s: State, uri: Uri)
    requires uri in s.table
  {
    && Live(s, s.table[uri]) && s.pushes
    && var task := s.tasks[s.table[uri]];
       && task.uri == uri && !task.cancelled && task.epoch == EpochOf(s, uri)
       && uri in s.open
       && (task.phase.Diagnosing? ==> task.phase.version == Some(s.open[uri]))
  }

  /** Every un-cancelled live task is the one in the table, and epochs of tasks
      do not lie ahead. */
  ghost predicate TaskOk(s: State, id: TaskId)
    requires id in s.tasks
  {
    var task := s.tasks[id];
    && task.epoch <= EpochOf(s, task.uri)
    && (Live(s, id) && !task.cancelled ==> task.uri in s.table && s.table[task.uri] == id)
  }

  ghost predicate Inv(s: State) {
    && (forall uri :: uri in s.table ==> EntryOk(s, uri))
    && (forall id :: id in s.tasks ==> TaskOk(s, id))
  }

  /** Scheduling for a document that is open, after its version was set or not. */
  lemma {:induction false} ScheduledKeeps(s: State, uri: Uri, id: TaskId)
    requires IsNew(s, id) && uri in s.open && (s.shutdown ==> s.table == map[])
    requires forall u :: u in s.table && u != uri ==> EntryOk(s, u)
    requires uri in s.table ==> Live(s, s.table[uri]) && s.tasks[s.table[uri]].uri == uri && s.pushes
    requires forall i :: i in s.tasks ==> TaskOk(s, i)
    ensures Inv(Scheduled(s, uri, id))
  {
    var s' := Scheduled(s, uri, id);
    if s.pushes && !s.shutdown {
      forall u | u in s'.table
        ensures EntryOk(s', u)
      {
        if u != uri {
          assert EntryOk(s, u);
        }
      }
      forall i | i in s'.tasks
        ensures TaskOk(s', i)
      {
        if i != id {
          assert TaskOk(s, i);
        }
      }
    }
  }

  /** Opening or changing a document changes its version and retires its task. */
  lemma {:induction false} OpenedKeeps(s: State, uri: Uri, version: Version, id: TaskId)
    requires Inv(s) && IsNew(s, id) && (s.shutdown ==> s.table == map[])
    ensures Inv(Opened(s, uri, version, id))
  {
    var reopened := s.(open := s.open[uri := version]);
    forall u | u in reopened.table && u != uri
      ensures EntryOk(reopened, u)
    {
      assert EntryOk(s, u);
    }
    forall i | i in reopened.tasks
      ensures TaskOk(reopened, i)
    {
      assert TaskOk(s, i);
    }
    ScheduledKeeps(reopened, uri, id);
  }

  lemma {:induction false} ClosedKeeps(s: State, uri: Uri)
    requires Inv(s)
    ensures Inv(Closed(s, uri))
  {
    var s' := Closed(s, uri);
    assert uri in s.table ==> EntryOk(s, uri);
    forall u | u in s'.table
      ensures EntryOk(s', u)
    {
      assert EntryOk(s, u);
    }
    forall i | i in s'.tasks
      ensures TaskOk(s', i)
    {
      assert TaskOk(s, i);
    }
  }

  lemma {:induction false} StoppedKeeps(s: State, shutdown: bool)
    requires Inv(s)
    ensures Inv(Stopped(s, shutdown))
  {
    var s' := Stopped(s, shutdown);
    forall i | i in s'.tasks
      ensures TaskOk(s', i)
    {
      assert TaskOk(s, i);
    }
  }

  lemma {:induction false} EndedKeeps(s: State, id: TaskId, task: Task)
    requires Inv(s) && Live(s, id) && s.tasks[id] == task
    ensures Inv(Ended(s, id, task))
  {
    var s' := Ended(s, id, task);
    assert TaskOk(s, id);
    forall u | u in s'.table
      ensures EntryOk(s', u)
    {
      assert EntryOk(s, u);
    }
    forall i | i in s'.tasks
      ensures TaskOk(s', i)
    {
      assert TaskOk(s, i);
    }
  }

  /** A live task moves on to a phase that is not the end. */
  lemma {:induction false} MovedKeeps(s: State, id: TaskId, task: Task, phase: Phase)
    requires Inv(s) && Live(s, id) && s.tasks[id] == task && !phase.Finished? && !task.cancelled
    requires phase.Diagnosing? ==> phase.version == OpenVersion(s, task.uri)
    ensures Inv(s.(tasks := s.tasks[id := task.(phase := phase)]))
  {
    var s' := s.(tasks := s.tasks[id := task.(phase := phase)]);
    assert TaskOk(s, id);
    forall u | u in s'.table
      ensures EntryOk(s', u)
    {
      assert EntryOk(s, u);
    }
    forall i | i in s'.tasks
      ensures TaskOk(s', i)
    {
      assert TaskOk(s, i);
    }
  }

  lemma {:induction false} WrittenKeeps(s: State, output: seq<Push>)
    requires Inv(s)
    ensures Inv(s.(output := output))
  {
    var s' := s.(output := output);
    forall u | u in s'.table
      ensures EntryOk(s', u)
    {
      assert EntryOk(s, u);
    }
    forall i | i in s'.tasks
      ensures TaskOk(s', i)
    {
      assert TaskOk(s, i);
    }
  }

  lemma {:induction false} DiagnosedKeeps(s: State, id: TaskId, task: Task, version: Option<Version>, o: Outcome)
    requires Inv(s) && Live(s, id) && s.tasks[id] == task && !task.cancelled && version == OpenVersion(s, task.uri)
    ensures Inv(Diagnosed(s, id, task, version, o))
  {
    match o
    case Suspends => MovedKeeps(s, id, task, Diagnosing(version));
    case Fails => EndedKeeps(s, id, task);
    case Completes(items) =>
      var pushed := Pushed(s, task, version, items);
      WrittenKeeps(s, pushed.output);
      EndedKeeps(pushed, id, task);
  }

  lemma {:induction false} NeverRanKeeps(s: State, id: TaskId, task: Task)
    requires Inv(s) && Live(s, id) && s.tasks[id] == task && task.cancelled
    ensures Inv(s.(tasks := s.tasks[id := task.(phase := Finished)]))
  {
    var s' := s.(tasks := s.tasks[id := task.(phase := Finished)]);
    forall u | u in s'.table
      ensures EntryOk(s', u)
    {
      assert EntryOk(s, u);
    }
    forall i | i in s'.tasks
      ensures TaskOk(s', i)
    {
      assert TaskOk(s, i);
    }
  }

  lemma {:induction false} RanKeeps(s: State, id: TaskId, o: Outcome)
    requires Inv(s) && Live(s, id)
    ensures Inv(Ran(s, id, o))
  {
    var task := s.tasks[id];
    if task.cancelled {
      NeverRanKeeps(s, id, task);
      EndedKeeps(s, id, task);
    } else {
      assert TaskOk(s, id) && EntryOk(s, task.uri);
      match task.phase
      case Created => MovedKeeps(s, id, task, Sleeping);
      case Sleeping => DiagnosedKeeps(s, id, task, OpenVersion(s, task.uri), o);
      case Diagnosing(version) => DiagnosedKeeps(s, id, task, version, o);
    }
  }

  /** After a shutdown the table stays empty. */
  lemma {:induction false} ShutdownEmpties(s: State, a: Action)
    requires Enabled(s, a) && (s.shutdown ==> s.table == map[])
    ensures Next(s, a).shutdown ==> Next(s, a).table == map[]
  {
    match a
    case Run(id, o) => var _ := Ran(s, id, o);
    case _ =>
  }

  lemma {:induction false} NextKeeps(s: State, a: Action)
    requires Inv(s) && Enabled(s, a) && (s.shutdown ==> s.table == map[])
    ensures Inv(Next(s, a))
  {
    match a
    case Open(uri, version, _, id) => OpenedKeeps(s, uri, version, id);
    case OpenUnloaded(uri, version, id) => WaitingKeeps(s, s.opening[id := (uri, version)]);
    case FinishOpen(waiting, id) =>
      WaitingKeeps(s, s.opening - {waiting});
      OpenedKeeps(s.(opening := s.opening - {waiting}), s.opening[waiting].0, s.opening[waiting].1, id);
    case Change(uri, version, _, id) => OpenedKeeps(s, uri, version, id);
    case Save(uri, id) =>
      if uri in s.open {
        assert uri in s.table ==> EntryOk(s, uri);
        ScheduledKeeps(s, uri, id);
      }
    case Close(uri) => ClosedKeeps(s, uri);
    case Stop(shutdown) => StoppedKeeps(s, shutdown);
    case Run(id, o) => RanKeeps(s, id, o);
  }

  lemma {:induction false} WaitingKeeps(s: State, opening: map<TaskId, (Uri, Version)>)
    requires Inv(s)
    ensures Inv(s.(opening := opening))
  {
    var s' := s.(opening := opening);
    forall u | u in s'.table
      ensures EntryOk(s', u)
    {
      assert EntryOk(s, u);
    }
    forall i | i in s'.tasks
      ensures TaskOk(s', i)
    {
      assert TaskOk(s, i);
    }
  }

  lemma {:induction false} RunKeeps(s: State, actions: seq<Action>)
    requires Inv(s) && (s.shutdown ==> s.table == map[])
    ensures Inv(After(s, actions))
    decreases |actions|
  {
    if actions != [] {
      if Enabled(s, actions[0]) {
        NextKeeps(s, actions[0]);
        ShutdownEmpties(s, actions[0]);
        RunKeeps(Next(s, actions[0]), actions[1..]);
      } else {
        RunKeeps(s, actions[1..]);
      }
    }
  }

  /** A task that has not ended and was not cancelled. */
  predicate Publishing(s: State, id: TaskId) {
    Live(s, id) && !s.tasks[id].cancelled
  }

  /** At every suspension point each document has at most one un-cancelled publish
      task, which is the one in the table and belongs to the latest epoch. */
  lemma {:induction false} OnePublisherPerDocument(pushes: bool, versions: bool, actions: seq<Action>)
    ensures var s := After(Start(pushes, versions), actions);
            && (forall i, j :: Publishing(s, i) && Publishing(s, j) && s.tasks[i].uri == s.tasks[j].uri ==> i == j)
            && (forall i :: Publishing(s, i) ==>
                  && s.tasks[i].uri in s.table && s.table[s.tasks[i].uri] == i
                  && s.tasks[i].epoch == EpochOf(s, s.tasks[i].uri) && s.tasks[i].uri in s.open)
  {
    RunKeeps(Start(pushes, versions), actions);
    var s := After(Start(pushes, versions), actions);
    forall i | Publishing(s, i)
      ensures s.tasks[i].uri in s.table && s.table[s.tasks[i].uri] == i && EntryOk(s, s.tasks[i].uri)
    {
      assert TaskOk(s, i);
    }
  }

  // ----------------------------------------------------------------- output

  /** What one step writes: nothing, the empty list of a close, or diagnostics of
      the one publisher of an open document, with that document's own version. */
  ghost predicate WritesSoundly(s: State, a: Action, s': State) {
    || s'.output == s.output
    || (a.Close? && s'.output == s.output + [Cleared(a.uri)])
    || (&& a.Run? && Live(s, a.id) && !s.shutdown && a.outcome.Completes?
        && var task := s.tasks[a.id];
           && !task.cancelled && task.uri in s.open && task.epoch == EpochOf(s, task.uri)
           && task.uri in s.table && s.table[task.uri] == a.id
           && var version := if s.versions then s.open[task.uri] else None;
              s'.output == s.output + [Diagnostics(task.uri, a.outcome.items, version)])
  }

  lemma {:induction false} DiagnosedWrites(s: State, id: TaskId, task: Task, version: Option<Version>, o: Outcome)
    requires Inv(s) && Live(s, id) && s.tasks[id] == task && !task.cancelled && version == OpenVersion(s, task.uri)
    ensures WritesSoundly(s, Run(id, o), Diagnosed(s, id, task, version, o))
  {
    assert TaskOk(s, id) && EntryOk(s, task.uri);
  }

  lemma {:induction false} RanWrites(s: State, id: TaskId, o: Outcome)
    requires Inv(s) && Live(s, id)
    ensures WritesSoundly(s, Run(id, o), Ran(s, id, o))
  {
    var task := s.tasks[id];
    if !task.cancelled {
      assert TaskOk(s, id) && EntryOk(s, task.uri);
      if !task.phase.Created? {
        DiagnosedWrites(s, id, task, if task.phase.Sleeping? then OpenVersion(s, task.uri) else task.phase.version, o);
      }
    }
  }

  lemma {:induction false} NextWrites(s: State, a: Action)
    requires Inv(s) && Enabled(s, a)
    ensures WritesSoundly(s, a, Next(s, a))
  {
    if a.Run? {
      RanWrites(s, a.id, a.outcome);
    }
  }

  /** Diagnostics are only written for a document open at that moment, by its one
      publisher, for the latest epoch and under the version the handler recorded. */
  lemma {:induction false} DiagnosticsAreForOpenDocuments(pushes: bool, versions: bool, actions: seq<Action>, a: Action)
    requires Enabled(After(Start(pushes, versions), actions), a)
    ensures var s := After(Start(pushes, versions), actions); WritesSoundly(s, a, Next(s, a))
  {
    RunKeeps(Start(pushes, versions), actions);
    NextWrites(After(Start(pushes, versions), actions), a);
  }

  /** The versions of the documents in the store, which takes an open at once also
      when the handler still waits for the first load. */
  function Stored(s: State, stored: map<Uri, Version>, actions: seq<Action>): map<Uri, Version>
    decreases |actions|
  {
    if actions == [] then stored
    else Stored(Try(s, actions[0]), if Enabled(s, actions[0]) then Taken(stored, actions[0]) else stored, actions[1..])
  }

  function Taken(stored: map<Uri, Version>, a: Action): map<Uri, Version> {
    match a
    case Open(uri, version, accepted, _) => if accepted then stored[uri := version] else stored
    case OpenUnloaded(uri, version, _) => stored[uri := version]
    case Change(uri, version, accepted, _) => if accepted then stored[uri := version] else stored
    case Close(uri) => stored - {uri}
    case _ => stored
  }

  function VersionOf(version: D.Version): Version {
    match version
    case NoVersion => None
    case Version(number) => Some(number)
  }

  function VersionsOf(docs: D.Overlays): map<Uri, Version> {
    map path | path in docs.documents :: VersionOf(docs.documents[path].version)
  }

  /** The notification makes this call of the document store. */
  predicate Calls(docs: D.Overlays, a: Action, op: D.Operation) {
    var accepted := D.Step(docs, op).1.Accepted?;
    match op
    case Open(path, _, version) =>
      || (a.Open? && a.uri == path && a.version == VersionOf(version) && a.accepted == accepted)
      || (a.OpenUnloaded? && a.uri == path && a.version == VersionOf(version) && accepted)
    case Change(path, _, version, _) =>
      a.Change? && a.uri == path && a.version == VersionOf(version) && a.accepted == accepted
    case Close(path) => a.Close? && a.uri == path
  }

  /** The versions kept here are those of the document store, call by call. */
  lemma {:induction false} TakenIsTheStoresStep(docs: D.Overlays, a: Action, op: D.Operation)
    requires Calls(docs, a, op)
    ensures VersionsOf(D.Step(docs, op).0) == Taken(VersionsOf(docs), a)
  {
    var before, after := VersionsOf(docs), VersionsOf(D.Step(docs, op).0);
    forall path
      ensures path in after <==> path in Taken(before, a)
      ensures path in after ==> after[path] == Taken(before, a)[path]
    {
      assert path in before <==> path in docs.documents;
    }
  }

  /** The handler's record of a document and the store agree. */
  predicate RecordAgrees(s: State, stored: map<Uri, Version>, uri: Uri) {
    && (uri in s.open <==> uri in stored)
    && (uri in s.open ==> s.open[uri] == stored[uri])
  }

  /** Steps that bear on the document, in the record or in the store. */
  predicate Touches(s: State, a: Action, uri: Uri)
    requires Enabled(s, a)
  {
    match a
    case Open(u, _, accepted, _) => accepted && u == uri
    case OpenUnloaded(u, _, _) => u == uri
    case FinishOpen(waiting, _) => s.opening[waiting].0 == uri
    case Change(u, _, accepted, _) => accepted && u == uri
    case Close(u) => u == uri
    case _ => false
  }

  /** When such a step leaves record and store in agreement: an open that has to
      wait when it repeats the record, one that waited when the store still has
      its version, a change when the document is recorded, and any other always. */
  predicate LeavesAgreement(s: State, stored: map<Uri, Version>, a: Action, uri: Uri)
    requires Enabled(s, a)
  {
    match a
    case OpenUnloaded(_, version, _) => uri in s.open && s.open[uri] == version
    case FinishOpen(waiting, _) => uri in stored && stored[uri] == s.opening[waiting].1
    case Change(_, _, _, _) => uri in s.open
    case _ => true
  }

  /** The handler's record after a step. */
  function NextRecord(s: State, a: Action): map<Uri, Version>
    requires Enabled(s, a)
  {
    match a
    case Open(uri, version, accepted, _) => if accepted then s.open[uri := version] else s.open
    case FinishOpen(waiting, _) => s.open[s.opening[waiting].0 := s.opening[waiting].1]
    case Change(uri, version, accepted, _) => if accepted && uri in s.open then s.open[uri := version] else s.open
    case Close(uri) => s.open - {uri}
    case _ => s.open
  }

  lemma {:induction false} NextRecords(s: State, a: Action)
    requires Enabled(s, a)
    ensures Next(s, a).open == NextRecord(s, a)
  {
    if a.Run? {
      var _ := Ran(s, a.id, a.outcome);
    }
  }

  lemma {:induction false} StepAgreesExactly(s: State, stored: map<Uri, Version>, a: Action, uri: Uri)
    requires Enabled(s, a)
    ensures RecordAgrees(Next(s, a), Taken(stored, a), uri)
            <==> if Touches(s, a, uri) then LeavesAgreement(s, stored, a, uri) else RecordAgrees(s, stored, uri)
  {
    NextRecords(s, a);
    EntryAgreesExactly(s, NextRecord(s, a), stored, Taken(stored, a), a, uri);
  }

  lemma {:induction false} EntryAgreesExactly(
    s: State, record: map<Uri, Version>, stored: map<Uri, Version>, taken: map<Uri, Version>, a: Action, uri: Uri)
    requires Enabled(s, a) && record == NextRecord(s, a) && taken == Taken(stored, a)
    ensures ((uri in record <==> uri in taken) && (uri in record ==> record[uri] == taken[uri]))
            <==> if Touches(s, a, uri) then LeavesAgreement(s, stored, a, uri) else RecordAgrees(s, stored, uri)
  {
  }

  /** Whether the last step that bears on the document leaves agreement. */
  predicate LastTouchAgrees(s: State, stored: map<Uri, Version>, actions: seq<Action>, uri: Uri, agrees: bool)
    decreases |actions|
  {
    if actions == [] then agrees
    else
      var a := actions[0];
      if !Enabled(s, a) then LastTouchAgrees(s, stored, actions[1..], uri, agrees)
      else
        LastTouchAgrees(Next(s, a), Taken(stored, a), actions[1..], uri,
                        if Touches(s, a, uri) then LeavesAgreement(s, stored, a, uri) else agrees)
  }

  lemma {:induction false} RunAgreesExactly(s: State, stored: map<Uri, Version>, actions: seq<Action>, uri: Uri)
    ensures RecordAgrees(After(s, actions), Stored(s, stored, actions), uri)
            <==> LastTouchAgrees(s, stored, actions, uri, RecordAgrees(s, stored, uri))
    decreases |actions|
  {
    if actions != [] {
      if Enabled(s, actions[0]) {
        StepAgreesExactly(s, stored, actions[0], uri);
        RunAgreesExactly(Next(s, actions[0]), Taken(stored, actions[0]), actions[1..], uri);
      } else {
        RunAgreesExactly(s, stored, actions[1..], uri);
      }
    }
  }

  /** In every run, exactly when the handler's record of a document is the store's:
      when the last step that bore on the document left them in agreement. */
  lemma {:induction false} RecordFollowsTheStoreExactly(pushes: bool, versions: bool, actions: seq<Action>, uri: Uri)
    ensures var s := Start(pushes, versions);
            RecordAgrees(After(s, actions), Stored(s, map[], actions), uri)
            <==> LastTouchAgrees(s, map[], actions, uri, true)
  {
    RunAgreesExactly(Start(pushes, versions), map[], actions, uri);
  }

  /** Every step that bears on a document leaves agreement about it. */
  ghost predicate EveryTouchAgrees(s: State, stored: map<Uri, Version>, actions: seq<Action>)
    decreases |actions|
  {
    actions != [] ==>
      if !Enabled(s, actions[0]) then EveryTouchAgrees(s, stored, actions[1..])
      else
        && (forall uri :: Touches(s, actions[0], uri) ==> LeavesAgreement(s, stored, actions[0], uri))
        && EveryTouchAgrees(Next(s, actions[0]), Taken(stored, actions[0]), actions[1..])
  }

  /** So while every step meets its condition, the whole record is the store's. */
  lemma {:induction false} RecordFollowsTheStore(s: State, actions: seq<Action>)
    requires EveryTouchAgrees(s, s.open, actions)
    ensures After(s, actions).open == Stored(s, s.open, actions)
    decreases |actions|
  {
    if actions != [] {
      var a := actions[0];
      if Enabled(s, a) {
        forall uri
          ensures RecordAgrees(Next(s, a), Taken(s.open, a), uri)
        {
          StepAgreesExactly(s, s.open, a, uri);
        }
        SameRecord(Next(s, a), Taken(s.open, a));
        RecordFollowsTheStore(Next(s, a), actions[1..]);
      } else {
        RecordFollowsTheStore(s, actions[1..]);
      }
    }
  }

  lemma {:induction false} SameRecord(s: State, stored: map<Uri, Version>)
    requires forall uri :: RecordAgrees(s, stored, uri)
    ensures s.open == stored
  {
    forall uri
      ensures uri in s.open <==> uri in stored
      ensures uri in s.open ==> s.open[uri] == stored[uri]
    {
      assert RecordAgrees(s, stored, uri);
    }
  }

  /** The store takes a change of a document that was never opened, starting from
      the disk, and the handler does not record it. */
  lemma {:induction false} UnopenedChangeIsNotRecorded(uri: Uri, version: Version, id: TaskId)
    ensures var s := Start(true, true);
            && After(s, [Change(uri, version, true, id)]).open == map[]
            && Stored(s, map[], [Change(uri, version, true, id)]) == map[uri := version]
  {
    var s, a := Start(true, true), Change(uri, version, true, id);
    FirstAction(s, a, []);
    FirstStored(s, map[], a, []);
    assert [a] + [] == [a];
  }

  /** An open that waited for the first load overwrites the version of a change
      that came while it waited, and diagnostics carry the older version. */
  lemma {:induction false} WaitingOpenForgetsAChange(uri: Uri, v: int, w: int)
    ensures var actions := [OpenUnloaded(uri, Some(v), 0), Change(uri, Some(w), true, 1), FinishOpen(0, 1),
                            Run(1, Suspends), Run(1, Completes(7))];
            && After(Start(true, true), actions).output == [Diagnostics(uri, 7, Some(v))]
            && Stored(Start(true, true), map[], actions) == map[uri := Some(w)]
  {
    var s0 := Start(true, true);
    var a, b := OpenUnloaded(uri, Some(v), 0), Change(uri, Some(w), true, 1);
    var c, d, e := FinishOpen(0, 1), Run(1, Suspends), Run(1, Completes(7));
    var s1 := Next(s0, a);
    assert Next(s1, b) == s1;
    var s2 := Next(s1, c);
    assert s2.tasks[1] == Task(uri, 1, Created, false) && EpochOf(s2, uri) == 1;
    var s3 := Next(s2, d);
    var s4 := Next(s3, e);
    assert s4.output == [Diagnostics(uri, 7, Some(v))];
    FiveActions(s0, a, b, c, d, e);
    StoredFive(s0, uri, Some(v), Some(w), 7);
  }

  lemma {:induction false} StoredFive(s: State, uri: Uri, v: Version, w: Version, items: nat)
    requires s.opening == map[] && s.tasks == map[]
    ensures Stored(s, map[],
                   [OpenUnloaded(uri, v, 0), Change(uri, w, true, 1), FinishOpen(0, 1), Run(1, Suspends),
                    Run(1, Completes(items))])
            == map[uri := w]
  {
    var later := [FinishOpen(0, 1), Run(1, Suspends), Run(1, Completes(items))];
    var a, b := OpenUnloaded(uri, v, 0), Change(uri, w, true, 1);
    var empty: map<Uri, Version> := map[];
    assert Taken(empty, a) == map[uri := v] && Taken(Taken(empty, a), b) == map[uri := w];
    FirstStored(s, empty, a, [b] + later);
    FirstStored(Try(s, a), map[uri := v], b, later);
    StoredUntouched(Try(Try(s, a), b), map[uri := w], later);
    assert [a] + ([b] + later) == [a, b, later[0], later[1], later[2]];
  }

  lemma {:induction false} FirstStored(s: State, stored: map<Uri, Version>, a: Action, rest: seq<Action>)
    ensures Stored(s, stored, [a] + rest) == Stored(Try(s, a), if Enabled(s, a) then Taken(stored, a) else stored, rest)
  {
    assert ([a] + rest)[1..] == rest;
  }

  lemma {:induction false} StoredUntouched(s: State, stored: map<Uri, Version>, actions: seq<Action>)
    requires forall i :: 0 <= i < |actions| ==> actions[i].FinishOpen? || actions[i].Run?
    ensures Stored(s, stored, actions) == stored
    decreases |actions|
  {
    if actions != [] {
      StoredUntouched(Try(s, actions[0]), stored, actions[1..]);
    }
  }

  /** Whether an action may open a document. */
  predicate Opens(s: State, a: Action, uri: Uri) {
    || (a.Open? && a.accepted && a.uri == uri)
    || (a.FinishOpen? && a.waiting in s.opening && s.opening[a.waiting].0 == uri)
  }

  predicate NeverOpens(s: State, actions: seq<Action>, uri: Uri)
    decreases |actions|
  {
    actions != [] ==>
      && (Enabled(s, actions[0]) ==> !Opens(s, actions[0], uri))
      && NeverOpens(if Enabled(s, actions[0]) then Next(s, actions[0]) else s, actions[1..], uri)
  }

  /** Diagnostics written for a document in the part of the output after n. */
  ghost predicate OnlyCleared(output: seq<Push>, n: nat, uri: Uri) {
    n <= |output| && forall i :: n <= i < |output| && output[i].uri == uri ==> output[i].Cleared?
  }

  lemma {:induction false} StaysClosed(s: State, a: Action, uri: Uri)
    requires uri !in s.open && Enabled(s, a) && !Opens(s, a, uri)
    ensures uri !in Next(s, a).open
  {
    match a
    case Run(id, o) => var _ := Ran(s, id, o);
    case _ =>
  }

  lemma {:induction false} SilentWhileClosed(s: State, actions: seq<Action>, uri: Uri, n: nat)
    requires Inv(s) && (s.shutdown ==> s.table == map[]) && uri !in s.open && NeverOpens(s, actions, uri)
    requires OnlyCleared(s.output, n, uri)
    ensures OnlyCleared(After(s, actions).output, n, uri)
    decreases |actions|
  {
    if actions != [] {
      if Enabled(s, actions[0]) {
        NextKeeps(s, actions[0]);
        ShutdownEmpties(s, actions[0]);
        NextWrites(s, actions[0]);
        StaysClosed(s, actions[0], uri);
        SilentWhileClosed(Next(s, actions[0]), actions[1..], uri, n);
      } else {
        SilentWhileClosed(s, actions[1..], uri, n);
      }
    }
  }

  lemma {:induction false} RunShutdown(s: State, actions: seq<Action>)
    requires Inv(s) && (s.shutdown ==> s.table == map[])
    ensures After(s, actions).shutdown ==> After(s, actions).table == map[]
    decreases |actions|
  {
    if actions != [] {
      if Enabled(s, actions[0]) {
        NextKeeps(s, actions[0]);
        ShutdownEmpties(s, actions[0]);
        RunShutdown(Next(s, actions[0]), actions[1..]);
      } else {
        RunShutdown(s, actions[1..]);
      }
    }
  }

  /** After a close nothing but the empty list is written for a document until it
      is opened again, whatever tasks were running. */
  lemma {:induction false} NothingAfterClose(
    pushes: bool, versions: bool, earlier: seq<Action>, uri: Uri, later: seq<Action>)
    requires NeverOpens(Next(After(Start(pushes, versions), earlier), Close(uri)), later, uri)
    ensures var before := After(Start(pushes, versions), earlier);
            OnlyCleared(After(Next(before, Close(uri)), later).output, |before.output|, uri)
  {
    RunKeeps(Start(pushes, versions), earlier);
    RunShutdown(Start(pushes, versions), earlier);
    var before := After(Start(pushes, versions), earlier);
    NextKeeps(before, Close(uri));
    ShutdownEmpties(before, Close(uri));
    SilentWhileClosed(Next(before, Close(uri)), later, uri, |before.output|);
  }

  // --------------------------------------------------- what a close settles

  /** Some open of the document still waits for the first load. */
  ghost predicate OpenIsWaiting(s: State, uri: Uri) {
    exists w :: w in s.opening && s.opening[w].0 == uri
  }

  /** The client does not open the document in these actions. */
  predicate NotOpenedAgain(actions: seq<Action>, uri: Uri) {
    forall i :: 0 <= i < |actions| ==>
      !(actions[i].Open? && actions[i].uri == uri) && !(actions[i].OpenUnloaded? && actions[i].uri == uri)
  }

  /** Nothing will be written, or nothing will open the document. */
  ghost predicate Settled(s: State, uri: Uri) {
    !s.pushes || s.shutdown || (uri !in s.open && !OpenIsWaiting(s, uri))
  }

  lemma {:induction false} WaitingStays(s: State, a: Action, uri: Uri)
    requires Enabled(s, a) && !OpenIsWaiting(s, uri) && !(a.OpenUnloaded? && a.uri == uri)
    ensures !OpenIsWaiting(Next(s, a), uri)
  {
    match a
    case Run(id, o) => var _ := Ran(s, id, o);
    case _ =>
      forall w | w in Next(s, a).opening
        ensures Next(s, a).opening[w].0 != uri
      {
        assert w in s.opening ==> s.opening[w].0 != uri;
      }
  }

  lemma {:induction false} NextSettled(s: State, a: Action, uri: Uri)
    requires Enabled(s, a) && Settled(s, uri)
    requires !(a.Open? && a.uri == uri) && !(a.OpenUnloaded? && a.uri == uri)
    ensures Settled(Next(s, a), uri)
  {
    if a.Run? {
      var _ := Ran(s, a.id, a.outcome);
    }
    if s.pushes && !s.shutdown {
      WaitingStays(s, a, uri);
      assert a.FinishOpen? ==> s.opening[a.waiting].0 != uri;
      StaysClosed(s, a, uri);
    }
  }

  lemma {:induction false} SettledWritesNothing(s: State, a: Action, uri: Uri, n: nat)
    requires Inv(s) && Enabled(s, a) && Settled(s, uri) && OnlyCleared(s.output, n, uri)
    ensures OnlyCleared(Next(s, a).output, n, uri)
  {
    NextWrites(s, a);
    if a.Run? && s.tasks[a.id].uri in s.table {
      assert EntryOk(s, s.tasks[a.id].uri);
    }
  }

  lemma {:induction false} SettledIsSilent(s: State, actions: seq<Action>, uri: Uri, n: nat)
    requires Inv(s) && (s.shutdown ==> s.table == map[]) && Settled(s, uri) && NotOpenedAgain(actions, uri)
    requires OnlyCleared(s.output, n, uri)
    ensures OnlyCleared(After(s, actions).output, n, uri)
    decreases |actions|
  {
    if actions != [] {
      if Enabled(s, actions[0]) {
        NextKeeps(s, actions[0]);
        ShutdownEmpties(s, actions[0]);
        NextSettled(s, actions[0], uri);
        SettledWritesNothing(s, actions[0], uri, n);
        SettledIsSilent(Next(s, actions[0]), actions[1..], uri, n);
      } else {
        SettledIsSilent(s, actions[1..], uri, n);
      }
    }
  }

  /** Without a new open, diagnostics may still be written for the document. */
  ghost predicate WritesAgain(s: State, uri: Uri) {
    exists later :: NotOpenedAgain(later, uri) && !OnlyCleared(After(s, later).output, |s.output|, uri)
  }

  /** A waiting open resumes, its task is scheduled, and its diagnostics are written. */
  lemma {:induction false} WaitingOpenWrites(s: State, w: TaskId)
    requires s.pushes && !s.shutdown && w in s.opening
    ensures WritesAgain(s, s.opening[w].0)
  {
    var uri := s.opening[w].0;
    var id := Identifiers.Unused(s.tasks.Keys + s.opening.Keys);
    var resumed := s.(opening := s.opening - {w}, open := s.open[uri := s.opening[w].1]);
    ScheduledTask(resumed, uri, id);
    var s1 := Next(s, FinishOpen(w, id));
    TaskWrites(s1, id, EpochOf(s1, uri), uri);
    ThreeActions(s, FinishOpen(w, id), Run(id, Suspends), Run(id, Completes(0)));
    var later := [FinishOpen(w, id), Run(id, Suspends), Run(id, Completes(0))];
    assert NotOpenedAgain(later, uri);
    assert After(s, later).output[|s.output|].Diagnostics?;
  }

  lemma {:induction false} ScheduledTask(s: State, uri: Uri, id: TaskId)
    requires s.pushes && !s.shutdown && IsNew(s, id)
    ensures var t := Scheduled(s, uri, id);
            && id in t.tasks && t.tasks[id] == Task(uri, EpochOf(t, uri), Created, false)
            && uri in t.table && t.table[uri] == id && t.versions == s.versions
            && t.open == s.open && t.output == s.output && !t.shutdown
  {
  }

  lemma {:induction false} TaskWritesItems(s: State, id: TaskId, epoch: nat, uri: Uri, items: nat)
    requires id in s.tasks && s.tasks[id] == Task(uri, epoch, Created, false) && epoch == EpochOf(s, uri)
    requires uri in s.open && !s.shutdown
    ensures Try(Try(s, Run(id, Suspends)), Run(id, Completes(items))).output
         == s.output + [Diagnostics(uri, items, if s.versions then s.open[uri] else None)]
  {
    var t := Next(s, Run(id, Suspends));
    assert Live(t, id);
  }

  /** A scheduled task of an open document writes when nothing else happens. */
  lemma {:induction false} TaskWrites(s: State, id: TaskId, epoch: nat, uri: Uri)
    requires id in s.tasks && s.tasks[id] == Task(uri, epoch, Created, false) && epoch == EpochOf(s, uri)
    requires uri in s.open && !s.shutdown
    ensures var t := Next(s, Run(id, Suspends));
            && Live(t, id)
            && Next(t, Run(id, Completes(0))).output
               == s.output + [Diagnostics(uri, 0, if s.versions then s.open[uri] else None)]
  {
  }

  /** The empty list of a close is all that is written behind this point. */
  ghost predicate NoDiagnostics(output: seq<Push>, n: nat) {
    n <= |output| && forall i :: n <= i < |output| ==> output[i].Cleared?
  }

  lemma {:induction false} SilentWhenShutDown(s: State, actions: seq<Action>, n: nat)
    requires Inv(s) && s.shutdown && s.table == map[] && NoDiagnostics(s.output, n)
    ensures NoDiagnostics(After(s, actions).output, n) && After(s, actions).shutdown
    decreases |actions|
  {
    if actions != [] {
      if Enabled(s, actions[0]) {
        NextKeeps(s, actions[0]);
        ShutdownEmpties(s, actions[0]);
        NextWrites(s, actions[0]);
        ShutdownStays(s, actions[0]);
        SilentWhenShutDown(Next(s, actions[0]), actions[1..], n);
      } else {
        SilentWhenShutDown(s, actions[1..], n);
      }
    }
  }

  lemma {:induction false} ShutdownStays(s: State, a: Action)
    requires Enabled(s, a) && s.shutdown
    ensures Next(s, a).shutdown
  {
    match a
    case Run(id, o) => var _ := Ran(s, id, o);
    case _ =>
  }

  /** After a shutdown no diagnostics are written, whatever tasks were running. */
  lemma {:induction false} NothingAfterShutdown(pushes: bool, versions: bool, earlier: seq<Action>, later: seq<Action>)
    ensures var before := After(Start(pushes, versions), earlier);
            NoDiagnostics(After(Next(before, Stop(true)), later).output, |before.output|)
  {
    RunKeeps(Start(pushes, versions), earlier);
    RunShutdown(Start(pushes, versions), earlier);
    var before := After(Start(pushes, versions), earlier);
    NextKeeps(before, Stop(true));
    SilentWhenShutDown(Next(before, Stop(true)), later, |before.output|);
  }

  /** An edit, a save or an open that takes effect, of a document recorded then. */
  predicate CallsForDiagnostics(s: State, a: Action) {
    match a
    case Open(_, _, accepted, _) => accepted
    case FinishOpen(waiting, _) => waiting in s.opening
    case Change(uri, _, accepted, _) => accepted && uri in s.open
    case Save(uri, _) => uri in s.open
    case _ => false
  }

  function About(s: State, a: Action): Uri
    requires CallsForDiagnostics(s, a)
  {
    if a.FinishOpen? then s.opening[a.waiting].0 else a.uri
  }

  /** Each of these leads to diagnostics for the document, under its version then,
      when its task is left to run, and no earlier task of the document writes. */
  lemma {:induction false} EveryEditIsPublished(s: State, a: Action, items: nat)
    requires Inv(s) && Enabled(s, a) && CallsForDiagnostics(s, a) && s.pushes && !s.shutdown
    ensures var t, uri := Next(s, a), About(s, a);
            && t.output == s.output && uri in t.open
            && uri in t.table && t.table[uri] == a.id && Live(t, a.id) && !t.tasks[a.id].cancelled
            && (forall id: TaskId :: id in s.tasks && s.tasks[id].uri == uri && Live(s, id) ==> t.tasks[id].cancelled)
            && Try(Try(t, Run(a.id, Suspends)), Run(a.id, Completes(items))).output
               == s.output + [Diagnostics(uri, items, if s.versions then t.open[uri] else None)]
  {
    var t, uri := Next(s, a), About(s, a);
    var recorded := RecordedBy(s, a);
    ScheduledTask(recorded, uri, a.id);
    TaskWritesItems(t, a.id, EpochOf(t, uri), uri, items);
    forall id: TaskId | id in s.tasks && s.tasks[id].uri == uri && Live(s, id)
      ensures t.tasks[id].cancelled
    {
      assert TaskOk(s, id);
      EarlierIsCancelled(recorded, uri, a.id, id);
    }
  }

  /** The state in which the task of such an action is scheduled. */
  lemma {:induction false} RecordedBy(s: State, a: Action) returns (recorded: State)
    requires Enabled(s, a) && CallsForDiagnostics(s, a)
    ensures Next(s, a) == Scheduled(recorded, About(s, a), a.id)
    ensures IsNew(recorded, a.id) && About(s, a) in recorded.open
    ensures recorded == s.(opening := recorded.opening, open := recorded.open)
  {
    var before := if a.FinishOpen? then s.(opening := s.opening - {a.waiting}) else s;
    var version := if a.FinishOpen? then s.opening[a.waiting].1 else if a.Save? then None else a.version;
    recorded := if a.Save? then before else before.(open := s.open[About(s, a) := version]);
  }

  lemma {:induction false} EarlierIsCancelled(s: State, uri: Uri, id: TaskId, earlier: TaskId)
    requires s.pushes && !s.shutdown && IsNew(s, id) && earlier in s.tasks && s.tasks[earlier].uri == uri
    requires !s.tasks[earlier].cancelled ==> uri in s.table && s.table[uri] == earlier
    ensures Scheduled(s, uri, id).tasks[earlier].cancelled
  {
  }

  /** Exactly when a close leaves diagnostics to come although the client does not
      open the document again: when the server pushes, is not shut down, and some
      open of the document still waits for the first load. */
  lemma {:induction false} CloseSettlesExactly(pushes: bool, versions: bool, earlier: seq<Action>, uri: Uri)
    ensures var s := After(Start(pushes, versions), earlier);
            WritesAgain(Closed(s, uri), uri) <==> s.pushes && !s.shutdown && OpenIsWaiting(s, uri)
  {
    RunKeeps(Start(pushes, versions), earlier);
    RunShutdown(Start(pushes, versions), earlier);
    var s := After(Start(pushes, versions), earlier);
    var t := Closed(s, uri);
    NextKeeps(s, Close(uri));
    ShutdownEmpties(s, Close(uri));
    assert t.opening == s.opening;
    if s.pushes && !s.shutdown && OpenIsWaiting(s, uri) {
      var w :| w in s.opening && s.opening[w].0 == uri;
      WaitingOpenWrites(t, w);
    } else {
      forall later | NotOpenedAgain(later, uri)
        ensures OnlyCleared(After(t, later).output, |t.output|, uri)
      {
        SettledIsSilent(t, later, uri, |t.output|);
      }
    }
  }

  /** Before the first load it is otherwise: a close that overtakes the open still
      waiting for the load leaves the document open, and diagnostics follow. */
  lemma {:induction false} CloseOvertakesUnloadedOpen(uri: Uri)
    ensures var s := After(Start(true, true),
                           [OpenUnloaded(uri, None, 0), Close(uri), FinishOpen(0, 1), Run(1, Suspends),
                            Run(1, Completes(7))]);
            s.output == [Cleared(uri), Diagnostics(uri, 7, None)] && uri in s.open
  {
    var s1 := Next(Start(true, true), OpenUnloaded(uri, None, 0));
    var s2 := Next(s1, Close(uri));
    var s3 := Next(s2, FinishOpen(0, 1));
    assert s3.tasks[1] == Task(uri, 2, Created, false) && EpochOf(s3, uri) == 2;
    var s4 := Next(s3, Run(1, Suspends));
    var s5 := Next(s4, Run(1, Completes(7)));
    assert s2.output == [Cleared(uri)];
    assert s5.output == s2.output + [Diagnostics(uri, 7, None)];
    FiveActions(Start(true, true), OpenUnloaded(uri, None, 0), Close(uri), FinishOpen(0, 1), Run(1, Suspends),
                Run(1, Completes(7)));
  }

  function Try(s: State, a: Action): State {
    if Enabled(s, a) then Next(s, a) else s
  }

  lemma {:induction false} FirstAction(s: State, a: Action, rest: seq<Action>)
    ensures After(s, [a] + rest) == After(Try(s, a), rest)
  {
    assert ([a] + rest)[1..] == rest;
  }

  lemma {:induction false} ThreeActions(s: State, a: Action, b: Action, c: Action)
    ensures After(s, [a, b, c]) == Try(Try(Try(s, a), b), c)
  {
    assert [a, b, c] == [a] + ([b] + ([c] + []));
    FirstAction(s, a, [b] + ([c] + []));
    FirstAction(Try(s, a), b, [c] + []);
    FirstAction(Try(Try(s, a), b), c, []);
  }

  lemma {:induction false} FiveActions(s: State, a: Action, b: Action, c: Action, d: Action, e: Action)
    ensures After(s, [a, b, c, d, e]) == Try(Try(Try(Try(Try(s, a), b), c), d), e)
  {
    assert [a, b, c, d, e] == [a] + ([b] + [c, d, e]);
    FirstAction(s, a, [b] + [c, d, e]);
    FirstAction(Try(s, a), b, [c, d, e]);
    ThreeActions(Try(Try(s, a), b), c, d, e);
  }

  // -------------------------------------------------------------- the handler

  /** The handler's document and publish fields, with the tasks of the event loop
      and the notifications written so far. */
  class LspHandler {
    const pushDiagnostics: bool
    const publishVersions: bool
    var shutdown: bool
    var openDocuments: map<Uri, Version>
    var publishEpochs: map<Uri, nat>
    var publishTasks: map<Uri, TaskId>
    var tasks: map<TaskId, Task>
    var opening: map<TaskId, (Uri, Version)>
    var output: seq<Push>

    constructor (pushes: bool, versions: bool)
      ensures Now() == Start(pushes, versions)
    {
      pushDiagnostics, publishVersions, shutdown := pushes, versions, false;
      openDocuments, publishEpochs, publishTasks, tasks, opening, output := map[], map[], map[], map[], map[], [];
    }

    function Now(): State
      reads this
    {
      State(pushDiagnostics, publishVersions, shutdown, openDocuments, publishEpochs, publishTasks, tasks,
            opening, output)
    }

    method Cancel(uri: Uri)
      modifies this`tasks
      ensures Now() == CancelPending(old(Now()), uri)
    {
      if uri in publishTasks && publishTasks[uri] in tasks {
        tasks := tasks[publishTasks[uri] := tasks[publishTasks[uri]].(cancelled := true)];
      }
    }

    method SchedulePublish(uri: Uri, id: TaskId)
      modifies this`publishEpochs, this`publishTasks, this`tasks
      ensures Now() == Scheduled(old(Now()), uri, id)
    {
      if !pushDiagnostics || shutdown {
        return;
      }
      var epoch := EpochOf(Now(), uri) + 1;
      publishEpochs := publishEpochs[uri := epoch];
      Cancel(uri);
      tasks := tasks[id := Task(uri, epoch, Created, false)];
      publishTasks := publishTasks[uri := id];
    }

    method HandleDidOpen(uri: Uri, version: Version, accepted: bool, id: TaskId)
      requires IsNew(Now(), id)
      modifies this`openDocuments, this`publishEpochs, this`publishTasks, this`tasks
      ensures Now() == Next(old(Now()), Open(uri, version, accepted, id))
    {
      if accepted {
        openDocuments := openDocuments[uri := version];
        SchedulePublish(uri, id);
      }
    }

    method HandleDidChange(uri: Uri, version: Version, accepted: bool, id: TaskId)
      requires IsNew(Now(), id)
      modifies this`openDocuments, this`publishEpochs, this`publishTasks, this`tasks
      ensures Now() == Next(old(Now()), Change(uri, version, accepted, id))
    {
      if accepted && uri in openDocuments {
        openDocuments := openDocuments[uri := version];
        SchedulePublish(uri, id);
      }
    }

    method HandleDidClose(uri: Uri)
      modifies this`openDocuments, this`publishEpochs, this`publishTasks, this`tasks, this`output
      ensures Now() == Next(old(Now()), Close(uri))
    {
      openDocuments := openDocuments - {uri};
      publishEpochs := publishEpochs[uri := EpochOf(Now(), uri) + 1];
      Cancel(uri);
      publishTasks := publishTasks - {uri};
      if pushDiagnostics {
        output := output + [Cleared(uri)];
      }
    }

    method EndTask(id: TaskId, task: Task)
      modifies this`publishTasks, this`tasks
      ensures Now() == Ended(old(Now()), id, task)
    {
      tasks := tasks[id := task.(phase := Finished)];
      if task.uri in publishTasks && publishTasks[task.uri] == id {
        publishTasks := publishTasks - {task.uri};
      }
    }

    method FinishDiagnosis(id: TaskId, task: Task, version: Option<Version>, o: Outcome)
      modifies this`publishTasks, this`tasks, this`output
      ensures Now() == Diagnosed(old(Now()), id, task, version, o)
    {
      if o.Suspends? {
        tasks := tasks[id := task.(phase := Diagnosing(version))];
        return;
      }
      if o.Completes? && task.uri in openDocuments && EpochOf(Now(), task.uri) == task.epoch && !shutdown {
        output := output + [Diagnostics(task.uri, o.items, if publishVersions then version.GetOr(None) else None)];
      }
      EndTask(id, task);
    }

    /** One stretch of `_publish_document` between suspension points. */
    method PublishDocument(id: TaskId, o: Outcome)
      requires Live(Now(), id)
      modifies this`publishTasks, this`tasks, this`output
      ensures Now() == Next(old(Now()), Run(id, o))
    {
      var task := tasks[id];
      if task.cancelled {
        if task.phase.Created? {
          tasks := tasks[id := task.(phase := Finished)];
        } else {
          EndTask(id, task);
        }
      } else if task.phase.Created? {
        tasks := tasks[id := task.(phase := Sleeping)];
      } else if task.phase.Sleeping? {
        FinishDiagnosis(id, task, OpenVersion(Now(), task.uri), o);
      } else {
        FinishDiagnosis(id, task, task.phase.version, o);
      }
    }
  }
}
