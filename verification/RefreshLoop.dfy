/** The background refresh of the source index (src/pyflow/lsp/lsp_handler.py):
    a dirty flag and one worker task. Tasks are cooperative, so a step runs from
    one suspension point to the next. */
module RefreshLoop {
  import opened Wrappers
  import Identifiers

  type TaskId = nat

  /** `Created`: not yet run. `Sleeping`: in the debounce delay, after which the
      flag is cleared. `Refreshing`: waiting for the refresh, with the source
      revision read before it. */
  datatype Phase = Created | Sleeping | Refreshing(revision: nat) | Done

  datatype Worker = Worker(phase: Phase, cancelled: bool)

  datatype State = State(
    loaded: bool, revision: nat, dirty: bool, current: Option<TaskId>, workers: map<TaskId, Worker>, attempts: nat)

  datatype Action =
    | Load
    | Publish(revision: nat)                          // a snapshot is published by some other operation
    | Notify(id: TaskId)                              // watched files changed
    | Run(id: TaskId, raises: bool, next: TaskId)     // the worker runs; `next` names a worker it may start
    | Stop                                            // shutdown: stops the refresh and closes the server

  function Put(s: State, id: TaskId, phase: Phase): State {
    s.(workers := s.workers[id := Worker(phase, false)])
  }

  predicate Live(s: State, id: TaskId) {
    id in s.workers && !s.workers[id].phase.Done?
  }

  /** `_schedule_semantic_reload`. */
  function Scheduled(s: State, id: TaskId): State {
    var marked := s.(dirty := true);
    if s.current.Some? && Live(s, s.current.value) then marked
    else Put(marked.(current := Some(id)), id, Created)
  }

  /** `_stop_semantic_refresh`, then closing the server. */
  function Stopped(s: State): State {
    var cancelled :=
      if s.current.Some? && s.current.value in s.workers
      then s.workers[s.current.value := s.workers[s.current.value].(cancelled := true)]
      else s.workers;
    s.(dirty := false, workers := cancelled, loaded := false)
  }

  /** The `finally` block: a flag still set starts the next worker. */
  function Ended(s: State, id: TaskId, next: TaskId): State {
    var ended := Put(s, id, Done).(current := None);
    if s.dirty && s.loaded then Put(ended.(current := Some(next)), next, Created) else ended
  }

  /** The loop condition. */
  function Looped(s: State, id: TaskId, next: TaskId): State {
    if s.dirty && s.loaded then Put(s, id, Sleeping) else Ended(s, id, next)
  }

  function Ran(s: State, id: TaskId, raises: bool, next: TaskId): State
    requires Live(s, id)
  {
    var worker := s.workers[id];
    if worker.cancelled then
      // Cancelled before its first step, a coroutine never runs, not even its `finally`.
      if worker.phase.Created? then Put(s, id, Done) else Ended(s.(dirty := false), id, next)
    else
      match worker.phase
      case Created => Looped(s, id, next)
      case Sleeping =>
        var cleared := s.(dirty := false);
        if !s.loaded then Ended(cleared, id, next)
        else Put(cleared, id, Refreshing(s.revision)).(attempts := s.attempts + 1)
      case Refreshing(before) =>
        if raises || !s.loaded then Ended(s, id, next)
        else Looped(if s.revision != before then s.(dirty := true) else s, id, next)
  }

  predicate Enabled(s: State, a: Action) {
    match a
    case Notify(id) => id !in s.workers
    case Run(id, _, next) => Live(s, id) && next !in s.workers
    case _ => true
  }

  function Next(s: State, a: Action): State
    requires Enabled(s, a)
  {
    match a
    case Load => s.(loaded := true)
    case Publish(revision) => s.(revision := revision)
    case Notify(id) => if s.loaded then Scheduled(s, id) else s
    case Run(id, raises, next) => Ran(s, id, raises, next)
    case Stop => Stopped(s)
  }

  const INITIAL := State(false, 0, false, None, map[], 0)

  function After(s: State, actions: seq<Action>): State
    decreases |actions|
  {
    if actions == [] then s
    else After(if Enabled(s, actions[0]) then Next(s, actions[0]) else s, actions[1..])
  }

  // -------------------------------------------------------------- invariant

  /** At most the current worker is live; the flag is set on a loaded server only;
      and a live worker that is not cancelled works for a loaded server and, unless
      it is refreshing, for a set flag. Shutdowns keep all of this. */
  ghost predicate Inv(s: State) {
    && (forall id: TaskId :: Live(s, id) ==> s.current == Some(id))
    && (s.current.Some? ==> s.current.value in s.workers)
    && (s.dirty ==> s.loaded && s.current.Some?)
    && (s.current.Some? && Live(s, s.current.value) && !s.workers[s.current.value].cancelled ==>
          s.loaded && (s.dirty || s.workers[s.current.value].phase.Refreshing?))
  }

  lemma {:induction false} NextKeeps(s: State, a: Action)
    requires Inv(s) && Enabled(s, a)
    ensures Inv(Next(s, a))
  {
  }

  lemma {:induction false} RunKeeps(s: State, actions: seq<Action>)
    requires Inv(s)
    ensures Inv(After(s, actions))
    decreases |actions|
  {
    if actions != [] {
      if Enabled(s, actions[0]) {
        NextKeeps(s, actions[0]);
        RunKeeps(Next(s, actions[0]), actions[1..]);
      } else {
        RunKeeps(s, actions[1..]);
      }
    }
  }

  /** Nothing was cancelled, and the flag has a live worker. */
  ghost predicate Unstopped(s: State) {
    && (forall id :: id in s.workers ==> !s.workers[id].cancelled)
    && (s.dirty ==> s.current.Some? && Live(s, s.current.value))
  }

  lemma {:induction false} NextUnstopped(s: State, a: Action)
    requires Inv(s) && Unstopped(s) && Enabled(s, a) && a != Stop
    ensures Unstopped(Next(s, a))
  {
  }

  lemma {:induction false} RunUnstopped(s: State, actions: seq<Action>)
    requires Inv(s) && Unstopped(s) && Stop !in actions
    ensures Unstopped(After(s, actions))
    decreases |actions|
  {
    if actions != [] {
      if Enabled(s, actions[0]) {
        NextKeeps(s, actions[0]);
        NextUnstopped(s, actions[0]);
        RunUnstopped(Next(s, actions[0]), actions[1..]);
      } else {
        RunUnstopped(s, actions[1..]);
      }
    }
  }

  /** In every run, at every suspension point at most one worker is live; and until
      shutdown a set flag implies a live worker that was not cancelled, so it has
      not cleared the flag yet and will look at it. */
  lemma {:induction false} OneWorkerPerFlag(actions: seq<Action>)
    ensures var s := After(INITIAL, actions);
            && (forall i, j :: Live(s, i) && Live(s, j) ==> i == j)
            && (s.dirty && Stop !in actions ==>
                  s.current.Some? && Live(s, s.current.value) && !s.workers[s.current.value].cancelled)
  {
    RunKeeps(INITIAL, actions);
    if Stop !in actions {
      RunUnstopped(INITIAL, actions);
    }
  }

  // ---------------------------------------------------------------- progress

  /** The current worker was cancelled and has not run since. */
  predicate Doomed(s: State) {
    s.current.Some? && Live(s, s.current.value) && s.workers[s.current.value].cancelled
  }

  /** How many worker steps are left until a refresh starts, with the flag set. */
  function StepsToAttempt(s: State): nat {
    if s.current.None? || s.current.value !in s.workers then 0
    else
      match s.workers[s.current.value].phase
      case Sleeping => 1
      case Created => 2
      case Refreshing(_) => 3
      case Done => 0
  }

  function WorkerSteps(s: State, actions: seq<Action>): nat
    decreases |actions|
  {
    if actions == [] then 0
    else if !Enabled(s, actions[0]) then WorkerSteps(s, actions[1..])
    else (if actions[0].Run? then 1 else 0) + WorkerSteps(Next(s, actions[0]), actions[1..])
  }

  /** The flag is set and the current worker will look at it. */
  predicate Heard(s: State) {
    s.dirty && s.current.Some? && Live(s, s.current.value) && !s.workers[s.current.value].cancelled
  }

  /** A worker's step with the flag set starts a refresh or comes closer to one;
      no other step moves it away. */
  lemma {:induction false} StepComesCloser(s: State, a: Action)
    requires Inv(s) && Heard(s) && Enabled(s, a) && a != Stop
    ensures var s' := Next(s, a);
            || s'.attempts > s.attempts
            || (Heard(s') && s'.attempts == s.attempts
                && StepsToAttempt(s') + (if a.Run? then 1 else 0) <= StepsToAttempt(s))
  {
  }

  lemma {:induction false} AttemptsGrow(s: State, actions: seq<Action>)
    ensures After(s, actions).attempts >= s.attempts
    decreases |actions|
  {
    if actions != [] {
      AttemptsGrow(if Enabled(s, actions[0]) then Next(s, actions[0]) else s, actions[1..]);
    }
  }

  ghost predicate NobodyLive(s: State) {
    forall id: TaskId :: !Live(s, id)
  }

  /** A set flag leads to a refresh when its worker makes enough steps, or when no
      worker is left at the end. */
  lemma {:induction false} FlagLeadsToAttempt(s: State, actions: seq<Action>)
    requires Inv(s) && Heard(s) && Stop !in actions
    requires WorkerSteps(s, actions) >= StepsToAttempt(s) || NobodyLive(After(s, actions))
    ensures After(s, actions).attempts > s.attempts
    decreases |actions|
  {
    assert Live(s, s.current.value) && StepsToAttempt(s) > 0;
    if Enabled(s, actions[0]) {
      var s' := Next(s, actions[0]);
      NextKeeps(s, actions[0]);
      StepComesCloser(s, actions[0]);
      if s'.attempts > s.attempts {
        AttemptsGrow(s', actions[1..]);
      } else {
        FlagLeadsToAttempt(s', actions[1..]);
      }
    } else {
      FlagLeadsToAttempt(s, actions[1..]);
    }
  }

  /** In a loaded state a notification is heard unless the worker is doomed. */
  lemma {:induction false} NotifiedIsDirty(s: State, id: TaskId)
    requires Inv(s) && s.loaded && id !in s.workers
    ensures var t := Next(s, Notify(id));
            Inv(t) && t.attempts == s.attempts && (if Doomed(s) then Doomed(t) else Heard(t))
  {
    NextKeeps(s, Notify(id));
  }

  /** Each notification in a loaded state is followed by a refresh that starts after
      it, unless the current worker is doomed by an earlier shutdown: whatever else
      happens, and even when refreshes raise, three steps of the worker suffice. */
  lemma {:induction false} NotificationLeadsToRefresh(earlier: seq<Action>, id: TaskId, later: seq<Action>)
    requires Stop !in later
    requires var s := After(INITIAL, earlier);
             s.loaded && !Doomed(s) && id !in s.workers && WorkerSteps(Next(s, Notify(id)), later) >= 3
    ensures var notified := Next(After(INITIAL, earlier), Notify(id));
            After(notified, later).attempts > notified.attempts
  {
    RunKeeps(INITIAL, earlier);
    NotifiedIsDirty(After(INITIAL, earlier), id);
    FlagLeadsToAttempt(Next(After(INITIAL, earlier), Notify(id)), later);
  }

  ghost predicate Quiet(actions: seq<Action>) {
    forall i :: 0 <= i < |actions| ==> actions[i] != Stop && !actions[i].Notify?
  }

  lemma {:induction false} DoomedStep(s: State, a: Action)
    requires Inv(s) && (Doomed(s) || NobodyLive(s)) && Enabled(s, a) && a != Stop && !a.Notify?
    ensures var t := Next(s, a); t.attempts == s.attempts && (Doomed(t) || NobodyLive(t))
  {
    var t := Next(s, a);
    if a.Run? {
      assert Live(s, a.id) && s.current == Some(a.id);
    }
    forall other: TaskId | !Doomed(t)
      ensures !Live(t, other)
    {
      assert Live(s, other) ==> s.current == Some(other);
    }
  }

  /** Without new notifications a doomed worker ends without a refresh. */
  lemma {:induction false} DoomedEndsQuietly(s: State, actions: seq<Action>)
    requires Inv(s) && (Doomed(s) || NobodyLive(s)) && Quiet(actions)
    ensures After(s, actions).attempts == s.attempts
    decreases |actions|
  {
    if actions != [] {
      if Enabled(s, actions[0]) {
        NextKeeps(s, actions[0]);
        DoomedStep(s, actions[0]);
        DoomedEndsQuietly(Next(s, actions[0]), actions[1..]);
      } else {
        DoomedEndsQuietly(s, actions[1..]);
      }
    }
  }

  /** After any run, shutdowns included, exactly when a notification in a loaded
      state leads to a refresh by the time its worker and those it starts have
      ended: when the current worker was not a live cancelled one. */
  lemma {:induction false} NotificationHeardExactly(earlier: seq<Action>, id: TaskId, later: seq<Action>)
    requires Quiet(later)
    requires var s := After(INITIAL, earlier); s.loaded && id !in s.workers
    requires NobodyLive(After(Next(After(INITIAL, earlier), Notify(id)), later))
    ensures var s := After(INITIAL, earlier);
            After(Next(s, Notify(id)), later).attempts > s.attempts <==> !Doomed(s)
  {
    var s := After(INITIAL, earlier);
    RunKeeps(INITIAL, earlier);
    NotifiedIsDirty(s, id);
    if Doomed(s) {
      DoomedEndsQuietly(Next(s, Notify(id)), later);
    } else {
      FlagLeadsToAttempt(Next(s, Notify(id)), later);
    }
  }

  /** A refresh that ends leaves work exactly when the flag was set meanwhile, or it
      succeeded and the sources were overtaken by another publication. */
  lemma {:induction false} EndOfRefresh(s: State, id: TaskId, raises: bool, next: TaskId)
    requires Inv(s) && Enabled(s, Run(id, raises, next))
    requires s.workers[id].phase.Refreshing? && !s.workers[id].cancelled
    ensures var t := Next(s, Run(id, raises, next));
            && t.attempts == s.attempts
            && if s.dirty || (!raises && s.revision != s.workers[id].phase.revision) then Heard(t) else NobodyLive(t)
  {
    assert s.current == Some(id) && s.loaded;
    var t := Next(s, Run(id, raises, next));
    forall other: TaskId | !Heard(t)
      ensures !Live(t, other)
    {
      assert Live(s, other) ==> s.current == Some(other);
    }
  }

  /** After any run, exactly when a refresh is repeated although no watched file
      changes any more: when one changed during it, or it succeeded and another
      publication overtook the sources it started from. */
  lemma {:induction false} RefreshRepeatedExactly(
    earlier: seq<Action>, id: TaskId, raises: bool, next: TaskId, later: seq<Action>)
    requires Quiet(later)
    requires var s := After(INITIAL, earlier);
             && Enabled(s, Run(id, raises, next))
             && s.workers[id].phase.Refreshing? && !s.workers[id].cancelled
             && NobodyLive(After(Next(s, Run(id, raises, next)), later))
    ensures var s := After(INITIAL, earlier);
            After(Next(s, Run(id, raises, next)), later).attempts > s.attempts <==>
              s.dirty || (!raises && s.revision != s.workers[id].phase.revision)
  {
    var s := After(INITIAL, earlier);
    RunKeeps(INITIAL, earlier);
    EndOfRefresh(s, id, raises, next);
    var t := Next(s, Run(id, raises, next));
    NextKeeps(s, Run(id, raises, next));
    if Heard(t) {
      FlagLeadsToAttempt(t, later);
    } else {
      DoomedEndsQuietly(t, later);
    }
  }

  /** In particular a publication during a refresh that succeeds brings another one. */
  lemma {:induction false} OvertakenRefreshIsRepeated(
    s: State, revision: nat, id: TaskId, next: TaskId, later: seq<Action>)
    requires Inv(s) && Enabled(s, Run(id, false, next)) && Stop !in later
    requires s.workers[id].phase.Refreshing? && !s.workers[id].cancelled && s.workers[id].phase.revision != revision
    requires var t := Next(Next(s, Publish(revision)), Run(id, false, next));
             WorkerSteps(t, later) >= 3 || NobodyLive(After(t, later))
    ensures After(Next(Next(s, Publish(revision)), Run(id, false, next)), later).attempts > s.attempts
  {
    var overtaken := Next(s, Publish(revision));
    NextKeeps(s, Publish(revision));
    EndOfRefresh(overtaken, id, false, next);
    NextKeeps(overtaken, Run(id, false, next));
    FlagLeadsToAttempt(Next(overtaken, Run(id, false, next)), later);
  }

  /** How many more steps the workers may need before none is live. */
  function StepsToEnd(s: State): nat {
    if s.current.None? || !Live(s, s.current.value) then 0
    else if s.workers[s.current.value].cancelled then 1
    else
      match s.workers[s.current.value].phase
      case Created => 3
      case Sleeping => 2
      case Refreshing(before) => if s.dirty || s.revision != before then 4 else 1
      case Done => 0
  }

  /** Left to themselves, the workers always come to an end. */
  lemma {:induction false} WorkersEnd(s: State)
    returns (later: seq<Action>)
    requires Inv(s)
    ensures Quiet(later) && NobodyLive(After(s, later))
    decreases StepsToEnd(s)
  {
    if s.current.None? || !Live(s, s.current.value) {
      later := [];
    } else {
      var next := Identifiers.Unused(s.workers.Keys);
      var step := Run(s.current.value, false, next);
      NextKeeps(s, step);
      var rest := WorkersEnd(Next(s, step));
      later := [step] + rest;
      FirstAction(s, step, rest);
    }
  }

  /** Such a state can be reached: a shutdown, a load, and a notification before
      the cancelled worker has run. */
  lemma {:induction false} NotificationLostAfterStop()
    ensures var s := After(INITIAL, [Load, Notify(0), Run(0, false, 1), Stop, Load]);
            s.loaded && Doomed(s) && 2 !in s.workers && NobodyLive(After(Next(s, Notify(2)), [Run(0, false, 3)]))
  {
    var s1 := Next(Next(INITIAL, Load), Notify(0));
    assert s1.workers == map[0 := Worker(Created, false)];
    var s2 := Next(s1, Run(0, false, 1));
    var s3 := Next(Next(s2, Stop), Load);
    assert s3.workers == map[0 := Worker(Sleeping, true)];
    FirstAction(INITIAL, Load, [Notify(0), Run(0, false, 1), Stop, Load]);
    FirstAction(Next(INITIAL, Load), Notify(0), [Run(0, false, 1), Stop, Load]);
    FirstAction(s1, Run(0, false, 1), [Stop, Load]);
    FirstAction(s2, Stop, [Load]);
    FirstAction(Next(s2, Stop), Load, []);
    var s4 := Next(s3, Notify(2));
    var s5 := Next(s4, Run(0, false, 3));
    assert s5.workers == map[0 := Worker(Done, false)];
    FirstAction(s4, Run(0, false, 3), []);
  }

  lemma {:induction false} FirstAction(s: State, a: Action, rest: seq<Action>)
    requires Enabled(s, a)
    ensures After(s, [a] + rest) == After(Next(s, a), rest)
  {
    assert ([a] + rest)[1..] == rest;
  }

  // -------------------------------------------------------------- the handler

  /** The handler's refresh fields; `loaded`, `revision` and the tasks belong to
      the server and the event loop. */
  class LspHandler {
    var loaded: bool
    var revision: nat
    var semanticDirty: bool
    var semanticTask: Option<TaskId>
    var workers: map<TaskId, Worker>
    ghost var attempts: nat

    constructor ()
      ensures Now() == INITIAL
    {
      loaded, revision, semanticDirty, semanticTask, workers := false, 0, false, None, map[];
      attempts := 0;
    }

    ghost function Now(): State
      reads this
    {
      State(loaded, revision, semanticDirty, semanticTask, workers, attempts)
    }

    method HandleWatchedFiles(changes: bool, id: TaskId)
      requires id !in workers
      modifies this`semanticDirty, this`semanticTask, this`workers
      ensures Now() == if changes then Next(old(Now()), Notify(id)) else old(Now())
    {
      if loaded && changes {
        ScheduleSemanticReload(id);
      }
    }

    method ScheduleSemanticReload(id: TaskId)
      modifies this`semanticDirty, this`semanticTask, this`workers
      ensures Now() == Scheduled(old(Now()), id)
    {
      semanticDirty := true;
      if semanticTask.Some? && semanticTask.value in workers && !workers[semanticTask.value].phase.Done? {
        return;
      }
      semanticTask := Some(id);
      workers := workers[id := Worker(Created, false)];
    }

    method StopSemanticRefresh()
      modifies this`loaded, this`semanticDirty, this`workers
      ensures Now() == Stopped(old(Now()))
    {
      semanticDirty := false;
      if semanticTask.Some? && semanticTask.value in workers {
        workers := workers[semanticTask.value := workers[semanticTask.value].(cancelled := true)];
      }
      loaded := false;
    }

    method EndWorker(id: TaskId, next: TaskId)
      modifies this`semanticTask, this`workers
      ensures Now() == Ended(old(Now()), id, next)
    {
      semanticTask := None;
      workers := workers[id := Worker(Done, false)];
      if semanticDirty && loaded {
        semanticTask := Some(next);
        workers := workers[next := Worker(Created, false)];
      }
    }

    method TestLoop(id: TaskId, next: TaskId)
      modifies this`semanticTask, this`workers
      ensures Now() == Looped(old(Now()), id, next)
    {
      if semanticDirty && loaded {
        workers := workers[id := Worker(Sleeping, false)];
      } else {
        EndWorker(id, next);
      }
    }

    /** One stretch of `_run_semantic_refresh` between suspension points. */
    method RunSemanticRefresh(id: TaskId, raises: bool, next: TaskId)
      requires Enabled(Now(), Run(id, raises, next))
      modifies this`semanticDirty, this`semanticTask, this`workers, this`attempts
      ensures Now() == Next(old(Now()), Run(id, raises, next))
    {
      var worker := workers[id];
      if worker.cancelled && worker.phase.Created? {
        workers := workers[id := Worker(Done, false)];
      } else if worker.cancelled {
        semanticDirty := false;
        EndWorker(id, next);
      } else if worker.phase.Created? {
        TestLoop(id, next);
      } else if worker.phase.Sleeping? {
        semanticDirty := false;
        if loaded {
          attempts := attempts + 1;
          workers := workers[id := Worker(Refreshing(revision), false)];
        } else {
          EndWorker(id, next);
        }
      } else if raises || !loaded {
        EndWorker(id, next);
      } else {
        if revision != worker.phase.revision {
          semanticDirty := true;
        }
        TestLoop(id, next);
      }
    }
  }
}
