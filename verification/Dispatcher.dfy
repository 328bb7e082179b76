/** Dispatching of single JSON-RPC messages (src/pyflow/lsp/transport.py): one
    task per message, the table of running requests, cancellation, and the lock
    around the output stream. Tasks are cooperative, so a step runs from one
    suspension point to the next. */
module Dispatcher {
  import opened Wrappers

  /** Identifiers as dictionary keys; JSON arrays and objects cannot be hashed. */
  datatype Id = Name(text: string) | Number(n: int) | Null | Unhashable

  datatype Params = NoParams | Fields(id: Option<Id>) | Positional | Scalar

  /** What dispatching looks at; the method is None when missing, empty or no string. */
  datatype Message = NotAnObject | Object(version2: bool, id: Option<Id>, methodName: Option<string>, params: Params) {
    function RequestId(): Option<Id> {
      if Object? then id else None
    }

    /** The id a response to this message carries. */
    function Owner(): Id {
      RequestId().GetOr(Null)
    }
  }

  const CANCEL_METHOD := "$/cancelRequest"

  const INVALID_REQUEST := -32600
  const METHOD_NOT_FOUND := -32601
  const INVALID_PARAMS := -32602
  const INTERNAL_ERROR := -32603
  const REQUEST_CANCELLED := -32800

  datatype Body = Value(result: int) | Failure(code: int)

  datatype Response = Response(id: Id, body: Body)

  /** What `_dispatch_one` decides before any handler runs. */
  datatype Verdict = Answer(response: Option<Response>) | Cancel(target: Id) | RunHandler

  function Examine(handlers: set<string>, msg: Message): Verdict {
    if msg.NotAnObject? || !msg.version2 || msg.methodName.None? then
      Answer(Some(Response(msg.Owner(), Failure(INVALID_REQUEST))))
    else if msg.params.Scalar? then
      Answer(if msg.id.Some? then Some(Response(msg.Owner(), Failure(INVALID_PARAMS))) else None)
    else if msg.methodName.value == CANCEL_METHOD then
      Cancel(if msg.params.Fields? then msg.params.id.GetOr(Null) else Null)
    else if msg.methodName.value !in handlers then
      Answer(if msg.id.Some? then Some(Response(msg.Owner(), Failure(METHOD_NOT_FOUND))) else None)
    else RunHandler
  }

  /** How a handler reaches its next suspension point or its end. */
  datatype Outcome = Suspends | Returns(result: int) | RaisesRpcError(code: int) | Fails | LetsCancellationThrough

  function Reply(msg: Message, o: Outcome): Option<Response>
    requires o.Returns? || o.RaisesRpcError? || o.Fails?
  {
    if msg.RequestId().None? then None
    else
      Some(Response(msg.Owner(), match o
                                 case Returns(result) => Value(result)
                                 case RaisesRpcError(code) => Failure(code)
                                 case _ => Failure(INTERNAL_ERROR)))
  }

  // -------------------------------------------------------------------- state

  /** `Sending` waits for the output lock; `afterCancel` tells the write in the
      cancellation branch from the ordinary one. */
  datatype Phase = Queued | Handling | Sending(response: Response, afterCancel: bool) | Finished

  /** `cancels` counts calls of `cancel()`; `mustCancel` is a cancellation not
      delivered yet. */
  datatype Task = Task(msg: Message, phase: Phase, mustCancel: bool, cancels: nat, sent: seq<Response>)

  type TaskId = nat

  /** `busy`: the lock is held by something suspended inside it. */
  datatype State = State(handlers: set<string>, tasks: map<TaskId, Task>, table: map<Id, TaskId>, busy: bool)

  datatype Action =
    | Receive(t: TaskId, msg: Message)
    | Begin(t: TaskId, outcome: Outcome)
    | Resume(t: TaskId, outcome: Outcome)
    | Unblock(t: TaskId)
    | SetBusy(busy: bool)
    | CancelFromBatch(target: Id)

  function Put(s: State, t: TaskId, task: Task): State {
    s.(tasks := s.tasks[t := task])
  }

  /** The `finally` block: a task withdraws the table entry that is its own. */
  function Forget(table: map<Id, TaskId>, id: Option<Id>, t: TaskId): map<Id, TaskId> {
    if id.Some? && id.value in table && table[id.value] == t then table - {id.value} else table
  }

  function Finish(s: State, t: TaskId, task: Task): State {
    Put(s, t, task.(phase := Finished)).(table := Forget(s.table, task.msg.RequestId(), t))
  }

  /** `_send` of an optional response, then the end of the task. */
  function Deliver(s: State, t: TaskId, task: Task, response: Option<Response>, afterCancel: bool): State {
    if response.None? then Finish(s, t, task)
    else if s.busy then Put(s, t, task.(phase := Sending(response.value, afterCancel)))
    else Finish(s, t, task.(sent := task.sent + [response.value]))
  }

  /** The `except CancelledError` branch. */
  function DeliverCancellation(s: State, t: TaskId, task: Task): State {
    var response := Response(task.msg.Owner(), Failure(REQUEST_CANCELLED));
    Deliver(s, t, task, if task.msg.RequestId().Some? then Some(response) else None, true)
  }

  function AfterHandler(s: State, t: TaskId, task: Task, o: Outcome): State {
    match o
    case Suspends => Put(s, t, task.(phase := Handling))
    case LetsCancellationThrough => DeliverCancellation(s, t, task)
    case _ => Deliver(s, t, task, Reply(task.msg, o), false)
  }

  /** Cancelling the task registered under an id, unless it is the current one. */
  function CancelRequest(s: State, target: Id, current: Option<TaskId>): State {
    if target !in s.table || Some(s.table[target]) == current || s.table[target] !in s.tasks then s
    else
      var t := s.table[target];
      Put(s, t, s.tasks[t].(mustCancel := true, cancels := s.tasks[t].cancels + 1))
  }

  /** From the start of `_dispatch` to its first suspension. An id that cannot be
      hashed ends the task with a type error before anything is sent. */
  function Begun(s: State, t: TaskId, o: Outcome): State
    requires t in s.tasks
  {
    var task := s.tasks[t];
    var id := task.msg.RequestId();
    if id == Some(Unhashable) then Put(s, t, task.(phase := Finished))
    else
      var registered := if id.Some? then s.(table := s.table[id.value := t]) else s;
      match Examine(s.handlers, task.msg)
      case Answer(response) => Deliver(registered, t, task, response, false)
      case Cancel(target) => Finish(CancelRequest(registered, target, Some(t)), t, task)
      case RunHandler => AfterHandler(registered, t, task, o)
  }

  /** A task waiting for the lock gets it, or is cancelled while waiting. */
  function Unblocked(s: State, t: TaskId): State
    requires t in s.tasks && s.tasks[t].phase.Sending?
  {
    var task := s.tasks[t];
    if !task.mustCancel then Finish(s, t, task.(sent := task.sent + [task.phase.response]))
    else if task.phase.afterCancel then Finish(s, t, task.(mustCancel := false))
    else DeliverCancellation(s, t, task.(mustCancel := false))
  }

  /** Handlers let a cancellation through only when there was one. */
  predicate Enabled(s: State, a: Action) {
    match a
    case Receive(t, _) => t !in s.tasks
    case Begin(t, o) => t in s.tasks && s.tasks[t].phase.Queued? && !o.LetsCancellationThrough?
    case Resume(t, o) =>
      t in s.tasks && s.tasks[t].phase.Handling? && (o.LetsCancellationThrough? ==> s.tasks[t].cancels > 0)
    case Unblock(t) => t in s.tasks && s.tasks[t].phase.Sending? && (s.tasks[t].mustCancel || !s.busy)
    case SetBusy(_) => true
    case CancelFromBatch(_) => true
  }

  function Next(s: State, a: Action): State
    requires Enabled(s, a)
  {
    match a
    case Receive(t, msg) => Put(s, t, Task(msg, Queued, false, 0, []))
    case Begin(t, o) => Begun(s, t, o)
    case Resume(t, o) => AfterHandler(s, t, s.tasks[t].(mustCancel := false), o)
    case Unblock(t) => Unblocked(s, t)
    case SetBusy(busy) => s.(busy := busy)
    case CancelFromBatch(target) => CancelRequest(s, target, None)
  }

  function Start(handlers: set<string>): State {
    State(handlers, map[], map[], false)
  }

  /** A run of possible steps; a step not possible where it stands is skipped. */
  function After(s: State, actions: seq<Action>): State
    decreases |actions|
  {
    if actions == [] then s
    else After(if Enabled(s, actions[0]) then Next(s, actions[0]) else s, actions[1..])
  }

  // ----------------------------------------------------- how many responses

  /** Sections 4.1 and 5 of the JSON-RPC 2.0 specification. */
  predicate IsRequest(msg: Message) {
    && msg.Object? && msg.version2 && msg.methodName.Some? && !msg.params.Scalar?
    && msg.id.Some? && !msg.id.value.Unhashable?
  }

  predicate IsNotification(msg: Message) {
    msg.Object? && msg.version2 && msg.methodName.Some? && !msg.params.Scalar? && msg.id.None?
  }

  /** The responses due to a message, by what it is alone. */
  function Due(handlers: set<string>, msg: Message): nat {
    if msg.RequestId() == Some(Unhashable) then 0
    else
      match Examine(handlers, msg)
      case Answer(response) => if response.Some? then 1 else 0
      case Cancel(_) => 0
      case RunHandler => if msg.id.Some? then 1 else 0
  }

  lemma {:induction false} DueToRequestsAndNotifications(handlers: set<string>, msg: Message)
    ensures IsRequest(msg) && msg.methodName != Some(CANCEL_METHOD) ==>
                Due(handlers, msg) == 1 && msg.Owner() == msg.id.value
    ensures IsNotification(msg) ==> Due(handlers, msg) == 0
  {
    if IsRequest(msg) && msg.methodName != Some(CANCEL_METHOD) {
      var _ := Examine(handlers, msg);
    }
  }

  /** What holds of each task: nothing is sent before its end; a response carries
      its id; and how many were sent is settled unless it was cancelled twice. */
  ghost predicate TaskOk(handlers: set<string>, task: Task) {
    && |task.sent| <= 1
    && (task.sent != [] ==> task.sent[0].id == task.msg.Owner() && Due(handlers, task.msg) == 1)
    && (task.phase.Queued? ==> task.cancels == 0)
    && (task.mustCancel ==> task.cancels > 0)
    && (!task.phase.Finished? ==> task.sent == [])
    && (task.phase.Handling? ==> task.msg.RequestId() != Some(Unhashable) && Examine(handlers, task.msg) == RunHandler)
    && (task.phase.Sending? ==>
          && task.phase.response.id == task.msg.Owner() && Due(handlers, task.msg) == 1
          && (task.msg.RequestId().None? ==> task.cancels == 0)
          && (task.phase.afterCancel ==> task.cancels > (if task.mustCancel then 1 else 0)))
    && (task.msg.RequestId().None? ==> task.cancels == 0)
    && (task.phase.Finished? && task.cancels <= 1 ==> |task.sent| == Due(handlers, task.msg))
  }

  /** Entries of the table belong to unfinished tasks with that very id. */
  ghost predicate TableOk(s: State) {
    forall id :: id in s.table ==>
      && s.table[id] in s.tasks && s.tasks[s.table[id]].msg.RequestId() == Some(id)
      && (s.tasks[s.table[id]].phase.Handling? || s.tasks[s.table[id]].phase.Sending?)
  }

  ghost predicate Inv(s: State) {
    TableOk(s) && forall t :: t in s.tasks ==> TaskOk(s.handlers, s.tasks[t])
  }

  /** The state in the middle of a task's step: the invariant for all others, and
      entries that are the task's own or somebody else's. */
  ghost predicate InvBut(s: State, t: TaskId, msg: Message) {
    && (forall u :: u in s.tasks && u != t ==> TaskOk(s.handlers, s.tasks[u]))
    && (forall id :: id in s.table ==>
          if s.table[id] == t then msg.RequestId() == Some(id)
          else
            && s.table[id] in s.tasks && s.tasks[s.table[id]].msg.RequestId() == Some(id)
            && (s.tasks[s.table[id]].phase.Handling? || s.tasks[s.table[id]].phase.Sending?))
  }

  lemma {:induction false} FinishKeeps(s: State, t: TaskId, task: Task)
    requires InvBut(s, t, task.msg) && TaskOk(s.handlers, task.(phase := Finished))
    ensures Inv(Finish(s, t, task))
  {
  }

  lemma {:induction false} DeliverKeeps(s: State, t: TaskId, task: Task, response: Option<Response>, afterCancel: bool)
    requires InvBut(s, t, task.msg)
    requires task.sent == [] && (task.mustCancel ==> task.cancels > 0)
             && (task.msg.RequestId().None? ==> task.cancels == 0)
    requires Due(s.handlers, task.msg) == (if response.Some? then 1 else 0)
    requires response.Some? ==> response.value.id == task.msg.Owner()
    requires afterCancel ==> task.cancels > (if task.mustCancel then 1 else 0)
    ensures Inv(Deliver(s, t, task, response, afterCancel))
  {
    if response.None? {
      FinishKeeps(s, t, task);
    } else if !s.busy {
      var sent := task.(sent := task.sent + [response.value]);
      assert sent.sent == [response.value];
      FinishKeeps(s, t, sent);
    } else {
      assert TaskOk(s.handlers, task.(phase := Sending(response.value, afterCancel)));
    }
  }

  lemma {:induction false} HandlerKeeps(s: State, t: TaskId, task: Task, o: Outcome)
    requires InvBut(s, t, task.msg) && TaskOk(s.handlers, task.(phase := Handling)) && !task.mustCancel
    requires o.LetsCancellationThrough? ==> task.cancels > 0
    ensures Inv(AfterHandler(s, t, task, o))
  {
    if o.Suspends? {
      var running := task.(phase := Handling);
      assert TaskOk(s.handlers, running);
    } else if o.LetsCancellationThrough? {
      DeliverKeeps(s, t, task, Some(Response(task.msg.Owner(), Failure(REQUEST_CANCELLED))), true);
    } else {
      DeliverKeeps(s, t, task, Reply(task.msg, o), false);
    }
  }

  lemma {:induction false} CancelKeeps(s: State, target: Id, current: Option<TaskId>, msg: Message)
    requires if current.Some? then InvBut(s, current.value, msg) else Inv(s)
    ensures var s' := CancelRequest(s, target, current);
            if current.Some? then InvBut(s', current.value, msg) else Inv(s')
  {
  }

  lemma {:induction false} BeginKeeps(s: State, t: TaskId, o: Outcome)
    requires Inv(s) && Enabled(s, Begin(t, o))
    ensures Inv(Begun(s, t, o))
  {
    var task := s.tasks[t];
    var id := task.msg.RequestId();
    if id == Some(Unhashable) {
      assert TaskOk(s.handlers, task.(phase := Finished));
    } else {
      var registered := if id.Some? then s.(table := s.table[id.value := t]) else s;
      assert InvBut(registered, t, task.msg);
      match Examine(s.handlers, task.msg)
      case Answer(response) => DeliverKeeps(registered, t, task, response, false);
      case Cancel(target) =>
        CancelKeeps(registered, target, Some(t), task.msg);
        FinishKeeps(CancelRequest(registered, target, Some(t)), t, task);
      case RunHandler => HandlerKeeps(registered, t, task, o);
    }
  }

  lemma {:induction false} UnblockKeeps(s: State, t: TaskId)
    requires Inv(s) && Enabled(s, Unblock(t))
    ensures Inv(Unblocked(s, t))
  {
    var task := s.tasks[t];
    if !task.mustCancel {
      var sent := task.(sent := task.sent + [task.phase.response]);
      assert sent.sent == [task.phase.response];
      FinishKeeps(s, t, sent);
    } else if task.phase.afterCancel {
      FinishKeeps(s, t, task.(mustCancel := false));
    } else {
      DeliverKeeps(s, t, task.(mustCancel := false),
                   Some(Response(task.msg.Owner(), Failure(REQUEST_CANCELLED))), true);
    }
  }

  lemma {:induction false} ReceiveKeeps(s: State, t: TaskId, msg: Message)
    requires Inv(s) && t !in s.tasks
    ensures Inv(Next(s, Receive(t, msg)))
  {
    assert TaskOk(s.handlers, Task(msg, Queued, false, 0, []));
  }

  lemma {:induction false} BusyKeeps(s: State, busy: bool)
    requires Inv(s)
    ensures Inv(s.(busy := busy))
  {
  }

  lemma {:induction false} ResumeKeeps(s: State, t: TaskId, o: Outcome)
    requires Inv(s) && Enabled(s, Resume(t, o))
    ensures Inv(Next(s, Resume(t, o)))
  {
    HandlerKeeps(s, t, s.tasks[t].(mustCancel := false), o);
  }

  lemma {:induction false} HandlersStay(s: State, a: Action)
    requires Enabled(s, a)
    ensures Next(s, a).handlers == s.handlers
  {
  }

  lemma {:induction false} NextKeeps(s: State, a: Action)
    requires Inv(s) && Enabled(s, a)
    ensures Inv(Next(s, a))
  {
    match a
    case Receive(t, msg) => ReceiveKeeps(s, t, msg);
    case Begin(t, o) => BeginKeeps(s, t, o);
    case Resume(t, o) => ResumeKeeps(s, t, o);
    case Unblock(t) => UnblockKeeps(s, t);
    case SetBusy(busy) => BusyKeeps(s, busy);
    case CancelFromBatch(target) => CancelKeeps(s, target, None, NotAnObject);
  }

  lemma {:induction false} RunKeeps(s: State, actions: seq<Action>)
    requires Inv(s)
    ensures Inv(After(s, actions)) && After(s, actions).handlers == s.handlers
    decreases |actions|
  {
    if actions != [] {
      if Enabled(s, actions[0]) {
        NextKeeps(s, actions[0]);
        HandlersStay(s, actions[0]);
        RunKeeps(Next(s, actions[0]), actions[1..]);
      } else {
        RunKeeps(s, actions[1..]);
      }
    }
  }

  /** In every run a message has at most one response; once its task has ended and
      unless it was cancelled twice, it has exactly the responses due to it. */
  lemma {:induction false} EveryMessageIsAnsweredOnce(handlers: set<string>, actions: seq<Action>, t: TaskId)
    requires t in After(Start(handlers), actions).tasks
    ensures var task := After(Start(handlers), actions).tasks[t];
            && |task.sent| <= 1
            && (task.sent != [] ==> task.sent[0].id == task.msg.Owner() && Due(handlers, task.msg) == 1)
            && (task.phase.Finished? && task.cancels <= 1 ==> |task.sent| == Due(handlers, task.msg))
  {
    RunKeeps(Start(handlers), actions);
  }

  /** A valid request is answered once with its id, a valid notification never. */
  lemma {:induction false} RequestsAndNotifications(handlers: set<string>, actions: seq<Action>, t: TaskId)
    requires t in After(Start(handlers), actions).tasks
    ensures var task := After(Start(handlers), actions).tasks[t];
            && (IsNotification(task.msg) ==> task.sent == [])
            && (IsRequest(task.msg) && task.msg.methodName != Some(CANCEL_METHOD) && task.phase.Finished?
                && task.cancels <= 1 ==>
                  |task.sent| == 1 && task.sent[0].id == task.msg.id.value)
  {
    EveryMessageIsAnsweredOnce(handlers, actions, t);
    DueToRequestsAndNotifications(handlers, After(Start(handlers), actions).tasks[t].msg);
  }

  // ------------------------------------------------------- nobody holds the lock

  ghost predicate Uncontended(s: State) {
    !s.busy && forall t :: t in s.tasks ==>
      && !s.tasks[t].phase.Sending?
      && (s.tasks[t].phase.Finished? ==> |s.tasks[t].sent| == Due(s.handlers, s.tasks[t].msg))
  }

  lemma {:induction false} DeliverUncontended(
    s: State, t: TaskId, task: Task, response: Option<Response>, afterCancel: bool)
    requires !s.busy && task.sent == [] && Due(s.handlers, task.msg) == (if response.Some? then 1 else 0)
    requires forall u :: u in s.tasks && u != t ==>
               && !s.tasks[u].phase.Sending?
               && (s.tasks[u].phase.Finished? ==> |s.tasks[u].sent| == Due(s.handlers, s.tasks[u].msg))
    ensures Uncontended(Deliver(s, t, task, response, afterCancel))
  {
  }

  lemma {:induction false} BegunUncontended(s: State, t: TaskId, o: Outcome)
    requires Inv(s) && Uncontended(s) && Enabled(s, Begin(t, o))
    ensures Uncontended(Begun(s, t, o))
  {
    var task := s.tasks[t];
    var id := task.msg.RequestId();
    if id != Some(Unhashable) {
      var registered := if id.Some? then s.(table := s.table[id.value := t]) else s;
      match Examine(s.handlers, task.msg)
      case Answer(response) => DeliverUncontended(registered, t, task, response, false);
      case Cancel(target) =>
      case RunHandler =>
        if !o.Suspends? {
          DeliverUncontended(registered, t, task, Reply(task.msg, o), false);
        }
    }
  }

  lemma {:induction false} NextUncontended(s: State, a: Action)
    requires Inv(s) && Uncontended(s) && Enabled(s, a) && a != SetBusy(true)
    ensures Uncontended(Next(s, a))
  {
    match a
    case Begin(t, o) => BegunUncontended(s, t, o);
    case Resume(t, o) =>
      var task := s.tasks[t].(mustCancel := false);
      if o.LetsCancellationThrough? {
        DeliverUncontended(s, t, task, Some(Response(task.msg.Owner(), Failure(REQUEST_CANCELLED))), true);
      } else if !o.Suspends? {
        DeliverUncontended(s, t, task, Reply(task.msg, o), false);
      }
    case _ =>
  }

  lemma {:induction false} RunUncontended(s: State, actions: seq<Action>)
    requires Inv(s) && Uncontended(s) && SetBusy(true) !in actions
    ensures Uncontended(After(s, actions))
    decreases |actions|
  {
    if actions != [] {
      if Enabled(s, actions[0]) {
        NextKeeps(s, actions[0]);
        HandlersStay(s, actions[0]);
        NextUncontended(s, actions[0]);
        RunUncontended(Next(s, actions[0]), actions[1..]);
      } else {
        RunUncontended(s, actions[1..]);
      }
    }
  }

  /** As long as nothing is suspended while it holds the output lock, which no
      sender in the server is, exactly the responses due are sent however often a
      request is cancelled, and no task ever waits for the lock. */
  lemma {:induction false} AnsweredHoweverOftenCancelled(handlers: set<string>, actions: seq<Action>, t: TaskId)
    requires SetBusy(true) !in actions && t in After(Start(handlers), actions).tasks
    ensures var task := After(Start(handlers), actions).tasks[t];
            !task.phase.Sending? && (task.phase.Finished? ==> |task.sent| == Due(handlers, task.msg))
  {
    RunKeeps(Start(handlers), actions);
    RunUncontended(Start(handlers), actions);
  }

  // -------------------------------------------------------------- the table

  /** The task whose step an action is. */
  function Actor(a: Action): Option<TaskId> {
    match a
    case Begin(t, _) => Some(t)
    case Resume(t, _) => Some(t)
    case Unblock(t) => Some(t)
    case _ => None
  }

  /** From one table to the next, entries of others than the actor stay, except
      under an id taken over, and new entries are the actor's. */
  ghost predicate ForeignEntriesKept(
    before: map<Id, TaskId>, after: map<Id, TaskId>, actor: Option<TaskId>, taken: Option<Id>)
  {
    && (forall id :: id in before && Some(before[id]) != actor && Some(id) != taken ==>
        id in after && after[id] == before[id])
    && (forall id :: id in after && !(id in before && before[id] == after[id]) ==>
        Some(after[id]) == actor && Some(id) == taken)
  }

  lemma {:induction false} DeliverKeepsEntries(
    s: State, t: TaskId, task: Task, response: Option<Response>, afterCancel: bool)
    ensures ForeignEntriesKept(s.table, Deliver(s, t, task, response, afterCancel).table, Some(t), None)
  {
  }

  lemma {:induction false} EntriesThroughStart(
    before: map<Id, TaskId>, registered: map<Id, TaskId>, after: map<Id, TaskId>, t: TaskId, id: Option<Id>)
    requires registered == (if id.Some? then before[id.value := t] else before)
    requires ForeignEntriesKept(registered, after, Some(t), None)
    ensures ForeignEntriesKept(before, after, Some(t), id)
  {
  }

  lemma {:induction false} BeginKeepsEntries(s: State, t: TaskId, o: Outcome)
    requires Enabled(s, Begin(t, o))
    ensures ForeignEntriesKept(s.table, Begun(s, t, o).table, Some(t), s.tasks[t].msg.RequestId())
  {
    var task := s.tasks[t];
    var id := task.msg.RequestId();
    if id != Some(Unhashable) {
      var registered := if id.Some? then s.(table := s.table[id.value := t]) else s;
      match Examine(s.handlers, task.msg) {
        case Answer(response) => DeliverKeepsEntries(registered, t, task, response, false);
        case Cancel(target) => DeliverKeepsEntries(CancelRequest(registered, target, Some(t)), t, task, None, false);
        case RunHandler => HandlerKeepsEntries(registered, t, task, o);
      }
      EntriesThroughStart(s.table, registered.table, Begun(s, t, o).table, t, id);
    }
  }

  lemma {:induction false} HandlerKeepsEntries(s: State, t: TaskId, task: Task, o: Outcome)
    ensures ForeignEntriesKept(s.table, AfterHandler(s, t, task, o).table, Some(t), None)
  {
    match o
    case Suspends =>
    case LetsCancellationThrough =>
      var response := Response(task.msg.Owner(), Failure(REQUEST_CANCELLED));
      DeliverKeepsEntries(s, t, task, if task.msg.RequestId().Some? then Some(response) else None, true);
    case _ => DeliverKeepsEntries(s, t, task, Reply(task.msg, o), false);
  }

  /** The id an action puts into the table. */
  function Taken(s: State, a: Action): Option<Id>
    requires Enabled(s, a)
  {
    if a.Begin? then s.tasks[a.t].msg.RequestId() else None
  }

  /** A step removes or changes no entry of another task, even one with the same
      id, except that a task that begins takes over its own id; and a finished
      task has no entry. */
  lemma {:induction false} StepsKeepForeignEntries(s: State, a: Action)
    requires Inv(s) && Enabled(s, a)
    ensures ForeignEntriesKept(s.table, Next(s, a).table, Actor(a), Taken(s, a))
    ensures TableOk(Next(s, a))
  {
    NextKeeps(s, a);
    match a
    case Begin(t, o) => BeginKeepsEntries(s, t, o);
    case Resume(t, o) => HandlerKeepsEntries(s, t, s.tasks[t].(mustCancel := false), o);
    case Unblock(t) =>
      var response := Response(s.tasks[t].msg.Owner(), Failure(REQUEST_CANCELLED));
      DeliverKeepsEntries(s, t, s.tasks[t].(mustCancel := false),
                          if s.tasks[t].msg.RequestId().Some? then Some(response) else None, true);
    case _ =>
  }

  /** While a task u is registered under an id, another task with that id ends.
      Exactly when it had already been running, u keeps the entry; a task that
      begins and ends in one stretch has taken the entry over and withdraws it. */
  lemma {:induction false} DuplicateIdKeepsItsOwnerExactly(s: State, a: Action, t: TaskId, u: TaskId, id: Id)
    requires Inv(s) && Enabled(s, a) && Actor(a) == Some(t) && t != u
    requires id in s.table && s.table[id] == u && s.tasks[t].msg.RequestId() == Some(id)
    requires Next(s, a).tasks[t].phase.Finished?
    ensures (id in Next(s, a).table && Next(s, a).table[id] == u) <==> !a.Begin?
    ensures a.Begin? ==> id !in Next(s, a).table
  {
    StepsKeepForeignEntries(s, a);
    if a.Begin? {
      var table := Next(s, a).table;
      if id in table && table[id] == u {
        assert id != Unhashable;
        BeginLosesEntry(s, t, a.outcome, u, id);
      }
    }
  }

  /** A task that begins holds its own id, or has withdrawn it. */
  lemma {:induction false} BeginLosesEntry(s: State, t: TaskId, o: Outcome, u: TaskId, id: Id)
    requires Enabled(s, Begin(t, o)) && t != u && id != Unhashable && s.tasks[t].msg.RequestId() == Some(id)
    ensures id in Begun(s, t, o).table ==> Begun(s, t, o).table[id] == t
  {
  }

  /** So a second request with the id of a running one can end without taking the
      other's entry, and a cancellation for the id still reaches the other. */
  lemma {:induction false} DuplicateIdsDoNotInterfere(
    s: State, a: Action, t: TaskId, u: TaskId, id: Id, canceller: Option<TaskId>)
    requires Inv(s) && Enabled(s, a) && Actor(a) == Some(t) && t != u && !a.Begin?
    requires id in s.table && s.table[id] == u && s.tasks[t].msg.RequestId() == Some(id)
    requires canceller != Some(u)
    ensures var s' := Next(s, a);
            && id in s'.table && s'.table[id] == u && u in s'.tasks && s'.tasks[u] == s.tasks[u]
            && CancelRequest(s', id, canceller).tasks[u]
               == s.tasks[u].(mustCancel := true, cancels := s.tasks[u].cancels + 1)
  {
    StepsKeepForeignEntries(s, a);
    OthersUntouched(s, a, t, u);
  }

  lemma {:induction false} OthersUntouched(s: State, a: Action, t: TaskId, u: TaskId)
    requires Enabled(s, a) && Actor(a) == Some(t) && t != u && !a.Begin? && u in s.tasks
    ensures var s' := Next(s, a); u in s'.tasks && s'.tasks[u] == s.tasks[u]
  {
    if a.Resume? {
      var _ := AfterHandler(s, t, s.tasks[t].(mustCancel := false), a.outcome);
    }
  }

  /** Two running requests with one id: the first ends, the second is cancelled. */
  lemma {:induction false} TwoRequestsWithOneId(handlers: set<string>)
    requires "work" in handlers
    ensures var msg := Object(true, Some(Number(1)), Some("work"), NoParams);
            var s := After(Start(handlers),
                           [Receive(0, msg), Receive(1, msg), Begin(0, Suspends), Begin(1, Suspends),
                            Resume(0, Returns(5))]);
            && s.table == map[Number(1) := 1]
            && 0 in s.tasks && s.tasks[0].sent == [Response(Number(1), Value(5))]
            && CancelRequest(s, Number(1), None).tasks[1].mustCancel
  {
    var msg := Object(true, Some(Number(1)), Some("work"), NoParams);
    assert CANCEL_METHOD != "work" by {
      assert CANCEL_METHOD[0] != "work"[0];
    }
    var s2 := Next(Next(Start(handlers), Receive(0, msg)), Receive(1, msg));
    var s3 := Next(s2, Begin(0, Suspends));
    var s4 := Next(s3, Begin(1, Suspends));
    var s5 := Next(s4, Resume(0, Returns(5)));
    AfterFive(Start(handlers), Receive(0, msg), Receive(1, msg), Begin(0, Suspends), Begin(1, Suspends),
              Resume(0, Returns(5)));
    assert s5.table == map[Number(1) := 1];
  }

  function Try(s: State, a: Action): State {
    if Enabled(s, a) then Next(s, a) else s
  }

  lemma {:induction false} AfterOne(s: State, a: Action, rest: seq<Action>)
    ensures After(s, [a] + rest) == After(Try(s, a), rest)
  {
    assert ([a] + rest)[1..] == rest;
  }

  lemma {:induction false} AfterFive(s: State, a: Action, b: Action, c: Action, d: Action, e: Action)
    ensures After(s, [a, b, c, d, e]) == Try(Try(Try(Try(Try(s, a), b), c), d), e)
  {
    assert [a, b, c, d, e] == [a] + ([b] + ([c] + ([d] + ([e] + []))));
    AfterOne(s, a, [b] + ([c] + ([d] + ([e] + []))));
    AfterOne(Try(s, a), b, [c] + ([d] + ([e] + [])));
    AfterOne(Try(Try(s, a), b), c, [d] + ([e] + []));
    AfterOne(Try(Try(Try(s, a), b), c), d, [e] + []);
    AfterOne(Try(Try(Try(Try(s, a), b), c), d), e, []);
  }

  /** Why the lock matters: if something were suspended while it holds the output
      lock, which nothing in the server ever is, a second cancellation, met while
      the first is being reported, would leave a valid request without response. */
  lemma {:induction false} CancelledTwiceWhileWaiting(handlers: set<string>)
    requires "work" in handlers
    ensures var msg := Object(true, Some(Number(1)), Some("work"), NoParams);
            var s := After(After(Start(handlers),
                                 [Receive(0, msg), Begin(0, Suspends), SetBusy(true), CancelFromBatch(Number(1)),
                                                   Resume(0, LetsCancellationThrough)]),
                           [CancelFromBatch(Number(1)), Unblock(0), SetBusy(false), SetBusy(false), SetBusy(false)]);
            0 in s.tasks && s.tasks[0].phase.Finished? && IsRequest(msg) && s.tasks[0].sent == []
  {
    var msg := Object(true, Some(Number(1)), Some("work"), NoParams);
    assert CANCEL_METHOD != "work" by {
      assert CANCEL_METHOD[0] != "work"[0];
    }
    var s5 := CancelledBehindTheLock(handlers, msg);
    AfterFive(s5, CancelFromBatch(Number(1)), Unblock(0), SetBusy(false), SetBusy(false), SetBusy(false));
    var s7 := Next(Next(s5, CancelFromBatch(Number(1))), Unblock(0));
    assert s7.tasks[0].phase.Finished? && s7.tasks[0].sent == [];
  }

  lemma {:induction false} CancelledBehindTheLock(handlers: set<string>, msg: Message) returns (s: State)
    requires msg == Object(true, Some(Number(1)), Some("work"), NoParams) && "work" in handlers
             && CANCEL_METHOD != "work"
    ensures s == After(Start(handlers), [Receive(0, msg), Begin(0, Suspends), SetBusy(true), CancelFromBatch(Number(1)),
                                         Resume(0, LetsCancellationThrough)])
    ensures 0 in s.tasks && s.tasks[0].phase.Sending? && s.tasks[0].phase.afterCancel && s.tasks[0].sent == []
    ensures s.table == map[Number(1) := 0] && s.tasks[0].msg == msg
  {
    AfterFive(Start(handlers), Receive(0, msg), Begin(0, Suspends), SetBusy(true), CancelFromBatch(Number(1)),
              Resume(0, LetsCancellationThrough));
    var s2 := Next(Next(Start(handlers), Receive(0, msg)), Begin(0, Suspends));
    var s4 := Next(Next(s2, SetBusy(true)), CancelFromBatch(Number(1)));
    assert s4.tasks[0].cancels == 1;
    s := Next(s4, Resume(0, LetsCancellationThrough));
  }

  // ------------------------------------------------ what a message brings about

  /** The request that a `$/cancelRequest` names: its `id` parameter, or null. */
  predicate Names(params: Params, target: Id) {
    match params
    case Fields(Some(id)) => target == id
    case _ => target == Null
  }

  /** A received cancellation cancels exactly the task registered under the id it
      names, when there is one, and sends nothing. */
  lemma {:induction false} ReceivedCancellationReachesItsTarget(s: State, t: TaskId, o: Outcome, target: Id)
    requires Inv(s) && Enabled(s, Begin(t, o))
    requires var msg := s.tasks[t].msg;
             && msg.Object? && msg.version2 && msg.methodName == Some("$/cancelRequest") && !msg.params.Scalar?
             && Names(msg.params, target) && msg.id != Some(target) && msg.id != Some(Unhashable)
    ensures var s' := Next(s, Begin(t, o));
            && s'.tasks.Keys == s.tasks.Keys && s'.tasks[t] == s.tasks[t].(phase := Finished)
            && (target in s.table ==>
                  var u := s.table[target];
                  && u != t && u in s.tasks
                  && s'.tasks[u] == s.tasks[u].(mustCancel := true, cancels := s.tasks[u].cancels + 1))
            && forall v :: v in s.tasks && v != t && !(target in s.table && s.table[target] == v) ==>
                 s'.tasks[v] == s.tasks[v]
  {
    var registered := BegunCancellation(s, t, o, target);
    CancellingOne(s, registered, t, target);
    FinishChangesOne(CancelRequest(registered, target, Some(t)), t, s.tasks[t]);
  }

  /** The beginning of a cancellation: it registers itself, cancels and ends. */
  lemma {:induction false} BegunCancellation(s: State, t: TaskId, o: Outcome, target: Id) returns (registered: State)
    requires Enabled(s, Begin(t, o))
    requires var msg := s.tasks[t].msg;
             && msg.Object? && msg.version2 && msg.methodName == Some("$/cancelRequest") && !msg.params.Scalar?
             && Names(msg.params, target) && msg.id != Some(target) && msg.id != Some(Unhashable)
    ensures registered.tasks == s.tasks && (target in registered.table <==> target in s.table)
    ensures target in s.table ==> registered.table[target] == s.table[target]
    ensures Next(s, Begin(t, o)) == Finish(CancelRequest(registered, target, Some(t)), t, s.tasks[t])
  {
    var id := s.tasks[t].msg.RequestId();
    registered := if id.Some? then s.(table := s.table[id.value := t]) else s;
    assert Examine(s.handlers, s.tasks[t].msg) == Cancel(target);
  }

  lemma {:induction false} FinishChangesOne(s: State, t: TaskId, task: Task)
    requires t in s.tasks
    ensures var s' := Finish(s, t, task);
            && s'.tasks.Keys == s.tasks.Keys && s'.tasks[t] == task.(phase := Finished)
            && forall v :: v in s.tasks && v != t ==> s'.tasks[v] == s.tasks[v]
  {
  }

  lemma {:induction false} CancellingOne(s: State, registered: State, t: TaskId, target: Id)
    requires Inv(s) && t in s.tasks && s.tasks[t].phase.Queued? && registered.tasks == s.tasks
    requires target in registered.table <==> target in s.table
    requires target in s.table ==> registered.table[target] == s.table[target]
    ensures var s' := CancelRequest(registered, target, Some(t));
            && s'.tasks.Keys == s.tasks.Keys && s'.tasks[t] == s.tasks[t]
            && (target in s.table ==>
                  var u := s.table[target];
                  && u != t && u in s.tasks
                  && s'.tasks[u] == s.tasks[u].(mustCancel := true, cancels := s.tasks[u].cancels + 1))
            && forall v :: v in s.tasks && v != t && !(target in s.table && s.table[target] == v) ==>
                 s'.tasks[v] == s.tasks[v]
  {
  }

  /** The cancelled request, when it lets the cancellation through, is answered
      with the error for cancelled requests and forgotten. */
  lemma {:induction false} CancelledRequestIsAnswered(s: State, u: TaskId)
    requires Inv(s) && u in s.tasks && s.tasks[u].phase.Handling? && s.tasks[u].cancels > 0
    requires s.tasks[u].msg.RequestId().Some? && !s.busy
    ensures var s' := Next(s, Resume(u, LetsCancellationThrough));
            && s'.tasks[u].phase.Finished?
            && s'.tasks[u].sent == [Response(s.tasks[u].msg.RequestId().value, Failure(-32800))]
            && forall id :: id in s'.table ==> s'.table[id] != u
  {
    assert s.tasks[u].sent == [] by {
      assert TaskOk(s.handlers, s.tasks[u]);
    }
    StepsKeepForeignEntries(s, Resume(u, LetsCancellationThrough));
  }

  /** So a request in its handler that another message cancels is answered so. */
  lemma {:induction false} CancellationRoundTrip(s: State, t: TaskId, o: Outcome, u: TaskId, target: Id)
    requires Inv(s) && Enabled(s, Begin(t, o)) && !s.busy
    requires target in s.table && s.table[target] == u && s.tasks[u].phase.Handling?
    requires var msg := s.tasks[t].msg;
             && msg.Object? && msg.version2 && msg.methodName == Some("$/cancelRequest")
             && msg.params == Fields(Some(target)) && msg.id != Some(target) && msg.id != Some(Unhashable)
    ensures var s' := Next(s, Begin(t, o));
            && Enabled(s', Resume(u, LetsCancellationThrough))
            && Next(s', Resume(u, LetsCancellationThrough)).tasks[u].sent == [Response(target, Failure(-32800))]
  {
    ReceivedCancellationReachesItsTarget(s, t, o, target);
    NextKeeps(s, Begin(t, o));
    BegunStaysFree(s, t, o);
    CancelledRequestIsAnswered(Next(s, Begin(t, o)), u);
  }

  lemma {:induction false} BegunStaysFree(s: State, t: TaskId, o: Outcome)
    requires Enabled(s, Begin(t, o))
    ensures Begun(s, t, o).busy == s.busy && Begun(s, t, o).handlers == s.handlers
  {
  }

  /** What is sent for a message that ends in its first stretch, by the error codes
      of section 5.1 of the JSON-RPC 2.0 specification. */
  function FirstReply(handlers: set<string>, msg: Message, o: Outcome): seq<Response> {
    var id := if msg.Object? && msg.id.Some? then msg.id.value else Null;
    var answered := msg.Object? && msg.id.Some?;
    if msg.NotAnObject? || !msg.version2 || msg.methodName.None? then [Response(id, Failure(-32600))]
    else if !answered then []
    else if msg.params.Scalar? then [Response(id, Failure(-32602))]
    else if msg.methodName == Some("$/cancelRequest") then []
    else if msg.methodName.value !in handlers then [Response(id, Failure(-32601))]
    else
      match o
      case Returns(result) => [Response(id, Value(result))]
      case RaisesRpcError(code) => [Response(id, Failure(code))]
      case _ => [Response(id, Failure(-32603))]
  }

  lemma {:induction false} FirstStretchReplies(s: State, t: TaskId, o: Outcome)
    requires Inv(s) && Enabled(s, Begin(t, o)) && !s.busy && !o.Suspends?
    requires s.tasks[t].msg.RequestId() != Some(Unhashable)
    ensures var s' := Next(s, Begin(t, o));
            && s'.tasks[t].phase.Finished? && s'.tasks[t].sent == FirstReply(s.handlers, s.tasks[t].msg, o)
            && s'.table.Keys <= s.table.Keys
  {
    assert s.tasks[t].sent == [] by {
      assert TaskOk(s.handlers, s.tasks[t]);
    }
  }

  /** A handler that ends after it was suspended is answered in the same way. */
  lemma {:induction false} LaterStretchReplies(s: State, t: TaskId, o: Outcome)
    requires Inv(s) && Enabled(s, Resume(t, o)) && !s.busy && !o.Suspends? && !o.LetsCancellationThrough?
    ensures var s' := Next(s, Resume(t, o));
            s'.tasks[t].phase.Finished? && s'.tasks[t].sent == FirstReply(s.handlers, s.tasks[t].msg, o)
  {
    assert TaskOk(s.handlers, s.tasks[t]);
  }

  // --------------------------------------------------------------- the server

  /** The server's fields, and its coroutines cut at their suspension points. */
  class JsonRpcServer {
    const handlers: set<string>
    var tasks: map<TaskId, Task>
    var requestTasks: map<Id, TaskId>
    var busy: bool

    constructor (handlers: set<string>)
      ensures Now() == Start(handlers)
    {
      this.handlers, tasks, requestTasks, busy := handlers, map[], map[], false;
    }

    function Now(): State
      reads this
    {
      State(handlers, tasks, requestTasks, busy)
    }

    method FinishTask(t: TaskId, task: Task)
      modifies this`tasks, this`requestTasks
      ensures Now() == Finish(old(Now()), t, task)
    {
      var id := task.msg.RequestId();
      if id.Some? && id.value in requestTasks && requestTasks[id.value] == t {
        requestTasks := requestTasks - {id.value};
      }
      tasks := tasks[t := task.(phase := Finished)];
    }

    method SendAndFinish(t: TaskId, task: Task, response: Option<Response>, afterCancel: bool)
      modifies this`tasks, this`requestTasks
      ensures Now() == Deliver(old(Now()), t, task, response, afterCancel)
    {
      if response.None? {
        FinishTask(t, task);
      } else if busy {
        tasks := tasks[t := task.(phase := Sending(response.value, afterCancel))];
      } else {
        FinishTask(t, task.(sent := task.sent + [response.value]));
      }
    }

    method Cancel(target: Id, current: Option<TaskId>)
      modifies this`tasks
      ensures Now() == CancelRequest(old(Now()), target, current)
    {
      if target in requestTasks && requestTasks[target] in tasks {
        var t := requestTasks[target];
        if Some(t) != current {
          tasks := tasks[t := tasks[t].(mustCancel := true, cancels := tasks[t].cancels + 1)];
        }
      }
    }

    method AfterHandlerStep(t: TaskId, task: Task, o: Outcome)
      modifies this`tasks, this`requestTasks
      ensures Now() == AfterHandler(old(Now()), t, task, o)
    {
      if o.Suspends? {
        tasks := tasks[t := task.(phase := Handling)];
      } else if o.LetsCancellationThrough? {
        var response := Response(task.msg.Owner(), Failure(REQUEST_CANCELLED));
        SendAndFinish(t, task, if task.msg.RequestId().Some? then Some(response) else None, true);
      } else {
        SendAndFinish(t, task, Reply(task.msg, o), false);
      }
    }

    method Dispatch(t: TaskId, o: Outcome)
      requires Enabled(Now(), Begin(t, o))
      modifies this`tasks, this`requestTasks
      ensures Now() == Next(old(Now()), Begin(t, o))
    {
      var task := tasks[t];
      var id := task.msg.RequestId();
      if id == Some(Unhashable) {
        tasks := tasks[t := task.(phase := Finished)];
        return;
      }
      if id.Some? {
        requestTasks := requestTasks[id.value := t];
      }
      match Examine(handlers, task.msg)
      case Answer(response) => SendAndFinish(t, task, response, false);
      case Cancel(target) =>
        Cancel(target, Some(t));
        FinishTask(t, task);
      case RunHandler => AfterHandlerStep(t, task, o);
    }

    method ResumeHandler(t: TaskId, o: Outcome)
      requires Enabled(Now(), Resume(t, o))
      modifies this`tasks, this`requestTasks
      ensures Now() == Next(old(Now()), Resume(t, o))
    {
      AfterHandlerStep(t, tasks[t].(mustCancel := false), o);
    }

    method WakeSender(t: TaskId)
      requires Enabled(Now(), Unblock(t))
      modifies this`tasks, this`requestTasks
      ensures Now() == Next(old(Now()), Unblock(t))
    {
      var task := tasks[t];
      if !task.mustCancel {
        FinishTask(t, task.(sent := task.sent + [task.phase.response]));
      } else if task.phase.afterCancel {
        FinishTask(t, task.(mustCancel := false));
      } else {
        AfterHandlerStep(t, task.(mustCancel := false), LetsCancellationThrough);
      }
    }
  }
}
