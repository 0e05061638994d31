/**
 * The message bus as an interleaved step system.
 *
 * The bus owns per-role priority queues, one consumer per role, one task per
 * dequeued message and the futures of waiting request callers.  A `Bus` value is
 * a snapshot of all of it; `Apply` performs one step of the event loop.  A task
 * is `Created` by the consumer and enters its body only at a later step, so the
 * window between the two is part of the model.
 */
module BusSpec {
  import opened Prelude

  type Role = string
  type MsgId = nat
  type TaskId = nat

  datatype Message = Message(target: Role, priority: int, isRequest: bool, cancelled: bool)

  /** One queue item: the tuple `(priority, seq, msg)`. */
  datatype Entry = Entry(priority: int, seqNo: nat, id: MsgId)

  /** What a request future was completed with; `CallerGone` is a cancellation by its own waiter. */
  datatype Reply = HandlerResult | EmptyReply | HandlerError | HandlerCancelled | ShutdownError | CallerGone

  /** Every completion ever attempted on the future: more than one is an `InvalidStateError`. */
  datatype Future = Future(settles: seq<Reply>)

  datatype Caller = Waiting | Cancelling | TimingOut | Gone

  /** `Unstarted`: cancelled before its first step; `NoHandler`: the role had none to call. */
  datatype Ending = Unstarted | NoHandler | Exited
  datatype Phase = Created | Running | Finished(how: Ending)
  datatype Task = Task(msg: MsgId, role: Role, phase: Phase, cancelRequested: bool)

  datatype Outcome = Returned | ReturnedNone | Raised | Cancelled

  /** Where a message is, or where it ended. */
  datatype Place =
    | InQueue(role: Role, entry: Entry)
    | Dispatched(task: TaskId)
    | NoTarget
    | Discarded
    | Drained

  datatype Popped = Popped(role: Role, entry: Entry)

  /** The fields of the bus, the objects it points to, and two histories: `ran`, the
      messages handed to a handler, and `log`, the dequeues in order. */
  datatype Bus = Bus(
    queues: map<Role, set<Entry>>,
    pending: set<MsgId>,
    handlers: map<Role, bool>,
    dispatchTasks: map<MsgId, TaskId>,
    dispatchByAgent: map<Role, set<TaskId>>,
    liveDispatches: set<TaskId>,
    loops: set<Role>,
    shuttingDown: bool,
    seqNo: nat,
    msgs: map<MsgId, Message>,
    futures: map<MsgId, Future>,
    callers: map<MsgId, Caller>,
    tasks: map<TaskId, Task>,
    place: map<MsgId, Place>,
    ran: set<MsgId>,
    log: seq<Popped>)

  datatype Step =
    | Register(role: Role, hasHandler: bool)
    | StartLoop(role: Role)
    | StopLoop(role: Role)
    | Unregister(role: Role)
    | BeginShutdown
    | FailPending
    | Send(id: MsgId, m: Message)
    | Request(id: MsgId, m: Message)
    | Interrupt(id: MsgId, timeout: bool)
    | CancelFuture(id: MsgId)
    | CallerArm(id: MsgId)
    | CallerReturn(id: MsgId)
    | Dequeue(role: Role, entry: Entry, task: TaskId)
    | StartBody(task: TaskId)
    | FinishBody(task: TaskId, outcome: Outcome)
    | LiveCallback(task: TaskId)
    | TrackedCallback(task: TaskId)

  const Empty := Bus(map[], {}, map[], map[], map[], {}, {}, false, 0,
                     map[], map[], map[], map[], map[], {}, [])

  predicate Before(a: Entry, b: Entry) {
    a.priority < b.priority || (a.priority == b.priority && a.seqNo < b.seqNo)
  }

  /** Nothing queued sorts below `e`. */
  predicate IsLeast(e: Entry, q: set<Entry>) {
    e in q && forall f :: f in q ==> !Before(f, e)
  }

  predicate Settled(f: Future) { f.settles != [] }

  predicate IsFinished(t: Task) { t.phase.Finished? }

  /** `if fut is not None and not fut.done(): fut.set_result(...)`. */
  function Settle(futures: map<MsgId, Future>, id: MsgId, r: Reply): map<MsgId, Future> {
    if id in futures && !Settled(futures[id]) then futures[id := Future([r])] else futures
  }

  /** The same guarded completion of every future in `ids`. */
  function SettleAll(futures: map<MsgId, Future>, ids: set<MsgId>, r: Reply): map<MsgId, Future> {
    map id | id in futures :: if id in ids && !Settled(futures[id]) then Future([r]) else futures[id]
  }

  function CancelTasks(tasks: map<TaskId, Task>, ts: set<TaskId>): map<TaskId, Task> {
    map t | t in tasks :: if t in ts && !IsFinished(tasks[t]) then tasks[t].(cancelRequested := true) else tasks[t]
  }

  function Tracked(s: Bus, role: Role): set<TaskId> {
    if role in s.dispatchByAgent then s.dispatchByAgent[role] else {}
  }

  function QueueOf(s: Bus, role: Role): set<Entry> {
    if role in s.queues then s.queues[role] else {}
  }

  function Ids(q: set<Entry>): set<MsgId> {
    set e | e in q :: e.id
  }

  function DrainPlaces(place: map<MsgId, Place>, ids: set<MsgId>): map<MsgId, Place> {
    map id | id in place :: if id in ids then Drained else place[id]
  }

  // ---- the bus operations -------------------------------------------------

  function DoRegister(s: Bus, role: Role, hasHandler: bool): Bus {
    s.(queues := if role in s.queues then s.queues else s.queues[role := {}],
       handlers := s.handlers[role := hasHandler])
  }

  /** Cancel the consumer and the tracked dispatches, answer what was still queued. */
  function DoUnregister(s: Bus, role: Role): Bus {
    var ids := Ids(QueueOf(s, role));
    s.(loops := s.loops - {role},
       tasks := CancelTasks(s.tasks, Tracked(s, role)),
       dispatchByAgent := s.dispatchByAgent - {role},
       queues := s.queues - {role},
       futures := SettleAll(s.futures, ids * s.pending, HandlerCancelled),
       pending := s.pending - ids,
       handlers := s.handlers - {role},
       place := DrainPlaces(s.place, ids))
  }

  function DoFailPending(s: Bus): Bus {
    s.(futures := SettleAll(s.futures, s.pending, ShutdownError), pending := {})
  }

  function Accepts(s: Bus, target: Role): bool { target in s.queues }

  /** `send_checked`: an unknown target drops the message, a known one queues it under the next number. */
  function DoSend(s: Bus, id: MsgId, m: Message): Bus {
    var e := Entry(m.priority, s.seqNo + 1, id);
    s.(msgs := s.msgs[id := m],
       seqNo := if Accepts(s, m.target) then s.seqNo + 1 else s.seqNo,
       queues := if Accepts(s, m.target) then s.queues[m.target := s.queues[m.target] + {e}] else s.queues,
       place := s.place[id := if Accepts(s, m.target) then InQueue(m.target, e) else NoTarget])
  }

  /** `request` up to its wait; during shutdown it is refused and leaves nothing behind. */
  function DoRequest(s: Bus, id: MsgId, m: Message): Bus {
    if s.shuttingDown then s else
      DoSend(s.(futures := s.futures[id := Future([])],
                callers := s.callers[id := Waiting],
                pending := s.pending + {id}), id, m.(isRequest := true))
  }

  function DoRespond(s: Bus, id: MsgId, r: Reply): Bus {
    s.(futures := if id in s.pending then Settle(s.futures, id, r) else s.futures,
       pending := s.pending - {id})
  }

  /** The `except` arms of `request`: a timeout only forgets the id, a cancellation also
      cancels the dispatch or flags the message that has none yet. */
  function DoCallerArm(s: Bus, id: MsgId): Bus
    requires id in s.callers && id in s.msgs
  {
    var cancel := s.callers[id].Cancelling?;
    s.(pending := s.pending - {id},
       callers := s.callers[id := Gone],
       tasks := if cancel && id in s.dispatchTasks then CancelTasks(s.tasks, {s.dispatchTasks[id]}) else s.tasks,
       msgs := if cancel && id !in s.dispatchTasks then s.msgs[id := s.msgs[id].(cancelled := true)] else s.msgs)
  }

  /** One turn of the consumer loop: take `e`, drop it or create its dispatch task. */
  function DoDequeue(s: Bus, role: Role, e: Entry, t: TaskId): Bus
    requires role in s.queues && e.id in s.msgs
  {
    var drop := s.msgs[e.id].cancelled;
    s.(queues := s.queues[role := s.queues[role] - {e}],
       log := s.log + [Popped(role, e)],
       place := s.place[e.id := if drop then Discarded else Dispatched(t)],
       tasks := if drop then s.tasks else s.tasks[t := Task(e.id, role, Created, false)],
       liveDispatches := if drop then s.liveDispatches else s.liveDispatches + {t},
       dispatchTasks := if !drop && s.msgs[e.id].isRequest then s.dispatchTasks[e.id := t] else s.dispatchTasks,
       dispatchByAgent := if drop then s.dispatchByAgent else s.dispatchByAgent[role := Tracked(s, role) + {t}])
  }

  function HasHandler(s: Bus, role: Role): bool { role in s.handlers && s.handlers[role] }

  /** First step of a task: a task already cancelled never enters its body, so none of the
      body's cleanup runs. */
  function DoStartBody(s: Bus, t: TaskId): Bus
    requires t in s.tasks && s.tasks[t].msg in s.msgs
  {
    var phase := PhaseAtStart(s, t);
    s.(tasks := s.tasks[t := s.tasks[t].(phase := phase)],
       dispatchTasks := if phase == Finished(NoHandler) && s.msgs[s.tasks[t].msg].isRequest
                        then s.dispatchTasks - {s.tasks[t].msg} else s.dispatchTasks,
       ran := if phase.Running? then s.ran + {s.tasks[t].msg} else s.ran)
  }

  function PhaseAtStart(s: Bus, t: TaskId): Phase
    requires t in s.tasks
  {
    if s.tasks[t].cancelRequested then Finished(Unstarted)
    else if HasHandler(s, s.tasks[t].role) then Running
    else Finished(NoHandler)
  }

  function ReplyFor(o: Outcome): Reply {
    match o
    case Returned => HandlerResult
    case ReturnedNone => EmptyReply
    case Raised => HandlerError
    case Cancelled => HandlerCancelled
  }

  /** The handler is done: answer the caller of a request, then run the `finally`.  A
      cancellation forgets the id whatever the message type. */
  function DoFinishBody(s: Bus, t: TaskId, o: Outcome): Bus
    requires t in s.tasks && s.tasks[t].msg in s.msgs
  {
    var id := s.tasks[t].msg;
    var request := s.msgs[id].isRequest;
    var answers := request || o.Cancelled?;
    s.(futures := if answers && id in s.pending then Settle(s.futures, id, ReplyFor(o)) else s.futures,
       pending := if answers then s.pending - {id} else s.pending,
       tasks := s.tasks[t := s.tasks[t].(phase := Finished(Exited))],
       dispatchTasks := if request then s.dispatchTasks - {id} else s.dispatchTasks)
  }

  function DoTrackedCallback(s: Bus, t: TaskId): Bus
    requires t in s.tasks
  {
    var role := s.tasks[t].role;
    s.(dispatchByAgent := if role in s.dispatchByAgent then s.dispatchByAgent[role := s.dispatchByAgent[role] - {t}]
                          else s.dispatchByAgent)
  }

  /** Tasks that have not finished, as `live_dispatch_tasks` filters them. */
  function LiveDispatchTasks(s: Bus): set<TaskId> {
    set t | t in s.liveDispatches && t in s.tasks && !IsFinished(s.tasks[t])
  }

  // ---- one step, and runs -------------------------------------------------

  /** When the event loop can take the step.  Message ids and task ids are fresh. */
  predicate Enabled(s: Bus, step: Step) {
    match step
    case Register(_, _) => true
    case StartLoop(role) => role in s.queues
    case StopLoop(_) => true
    case Unregister(_) => true
    case BeginShutdown => true
    case FailPending => true
    case Send(id, m) => id !in s.msgs && !m.cancelled
    case Request(id, m) => id !in s.msgs && !m.cancelled
    case Interrupt(id, _) => id in s.callers && s.callers[id].Waiting?
    case CancelFuture(id) =>
      id in s.callers && (s.callers[id].Cancelling? || s.callers[id].TimingOut?)
    case CallerArm(id) =>
      id in s.callers && (s.callers[id].Cancelling? || s.callers[id].TimingOut?)
      && id in s.msgs && id in s.futures && Settled(s.futures[id])
    case CallerReturn(id) =>
      id in s.callers && !s.callers[id].Gone?
      && id in s.futures && Settled(s.futures[id]) && s.futures[id].settles[0] != CallerGone
    case Dequeue(role, e, t) =>
      role in s.loops && role in s.queues && IsLeast(e, s.queues[role]) && e.id in s.msgs && t !in s.tasks
    case StartBody(t) => t in s.tasks && s.tasks[t].phase.Created? && s.tasks[t].msg in s.msgs
    case FinishBody(t, _) => t in s.tasks && s.tasks[t].phase.Running? && s.tasks[t].msg in s.msgs
    case LiveCallback(t) => t in s.tasks && IsFinished(s.tasks[t])
    case TrackedCallback(t) => t in s.tasks && IsFinished(s.tasks[t])
  }

  function Apply(s: Bus, step: Step): Bus {
    if !Enabled(s, step) then s else
    match step
    case Register(role, h) => DoRegister(s, role, h)
    case StartLoop(role) => s.(loops := s.loops + {role})
    case StopLoop(role) => s.(loops := s.loops - {role})
    case Unregister(role) => DoUnregister(s, role)
    case BeginShutdown => s.(shuttingDown := true)
    case FailPending => DoFailPending(s)
    case Send(id, m) => DoSend(s, id, m)
    case Request(id, m) => DoRequest(s, id, m)
    case Interrupt(id, timeout) => s.(callers := s.callers[id := if timeout then TimingOut else Cancelling])
    case CancelFuture(id) => s.(futures := Settle(s.futures, id, CallerGone))
    case CallerArm(id) => DoCallerArm(s, id)
    case CallerReturn(id) => s.(callers := s.callers[id := Gone])
    case Dequeue(role, e, t) => DoDequeue(s, role, e, t)
    case StartBody(t) => DoStartBody(s, t)
    case FinishBody(t, o) => DoFinishBody(s, t, o)
    case LiveCallback(t) => s.(liveDispatches := s.liveDispatches - {t})
    case TrackedCallback(t) => DoTrackedCallback(s, t)
  }

  /** A run: the steps in order; a step that is not enabled leaves the bus as it is. */
  function Run(s: Bus, steps: seq<Step>): Bus
    decreases |steps|
  {
    if steps == [] then s else Apply(Run(s, steps[..|steps| - 1]), steps[|steps| - 1])
  }
}
