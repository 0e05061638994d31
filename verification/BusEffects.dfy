/**
 * What each operation of the bus does to any reachable state, told in terms of the state alone.
 */
module BusEffects {
  import opened BusSpec
  import opened BusInvariants
  import opened BusTheorems

  // ---- who would be cancelled by an eviction ------------------------------

  /** The set of a role holds only its own tasks, and every unfinished one of them unless an earlier
      eviction has already asked it to cancel. */
  ghost predicate Owned(byAgent: map<Role, set<TaskId>>, tasks: map<TaskId, Task>) {
    && (forall r, t :: r in byAgent && t in byAgent[r] ==> t in tasks && tasks[t].role == r)
    && (forall t :: t in tasks && !tasks[t].phase.Finished? ==>
          tasks[t].cancelRequested || (tasks[t].role in byAgent && t in byAgent[tasks[t].role]))
  }

  ghost predicate OwnedIn(s: Bus) { Owned(s.dispatchByAgent, s.tasks) }

  lemma OwnedAfterCancel(byAgent: map<Role, set<TaskId>>, tasks: map<TaskId, Task>, ts: set<TaskId>)
    requires Owned(byAgent, tasks)
    ensures Owned(byAgent, CancelTasks(tasks, ts))
  {
  }

  lemma OwnedAfterUnregister(s: Bus, role: Role)
    requires OwnedIn(s)
    ensures OwnedIn(DoUnregister(s, role))
  {
  }

  lemma OwnedAfterDequeue(s: Bus, role: Role, e: Entry, t: TaskId)
    requires OwnedIn(s) && role in s.queues && e.id in s.msgs && t !in s.tasks
    ensures OwnedIn(DoDequeue(s, role, e, t))
  {
  }

  lemma OwnedAfterBody(s: Bus, t: TaskId, o: Outcome)
    requires OwnedIn(s) && t in s.tasks && s.tasks[t].msg in s.msgs
    ensures s.tasks[t].phase.Created? ==> OwnedIn(DoStartBody(s, t))
    ensures s.tasks[t].phase.Running? ==> OwnedIn(DoFinishBody(s, t, o))
  {
    hide Settle;
  }

  lemma OwnedKept(s: Bus, step: Step)
    requires OwnedIn(s)
    ensures OwnedIn(Apply(s, step))
  {
    hide DoSend, DoRequest, DoCallerArm, DoDequeue, DoStartBody, DoFinishBody, DoUnregister, IsLeast, Owned, CancelTasks;
    if Enabled(s, step) {
      match step
      case Dequeue(role, e, t) => OwnedAfterDequeue(s, role, e, t);
      case Unregister(role) => OwnedAfterUnregister(s, role);
      case Send(id, m) => SendFrame(s, id, m);
      case Request(id, m) =>
        RequestFrame(s, id, m);
        SendFrame(s, id, m.(isRequest := true));
      case CallerArm(id) => OwnedAfterArm(s, id);
      case StartBody(t) => OwnedAfterBody(s, t, Returned);
      case FinishBody(t, o) => OwnedAfterBody(s, t, o);
      case TrackedCallback(t) => OwnedAfterCallback(s, t);
      case _ =>
    }
  }

  lemma OwnedAfterArm(s: Bus, id: MsgId)
    requires OwnedIn(s) && id in s.callers && id in s.msgs
    ensures OwnedIn(DoCallerArm(s, id))
  {
  }

  lemma OwnedAfterCallback(s: Bus, t: TaskId)
    requires OwnedIn(s) && t in s.tasks && IsFinished(s.tasks[t])
    ensures OwnedIn(DoTrackedCallback(s, t))
  {
  }

  lemma {:induction false} OwnedAlways(steps: seq<Step>)
    ensures OwnedIn(Run(Empty, steps))
    decreases |steps|
  {
    if steps != [] {
      OwnedAlways(steps[..|steps| - 1]);
      OwnedKept(Run(Empty, steps[..|steps| - 1]), steps[|steps| - 1]);
    }
  }

  // ---- cancellation -------------------------------------------------------

  /** `t` was asked to cancel and is otherwise as it was. */
  predicate AskedToCancel(t: Task, t': Task) { t' == Task(t.msg, t.role, t.phase, true) }

  /** Exactly the unfinished dispatches of the role are asked to cancel, running ones included. */
  lemma EvictionCancelsEveryDispatch(steps: seq<Step>, role: Role)
    ensures var s := Run(Empty, steps); var s' := Apply(s, Unregister(role));
      && s'.tasks.Keys == s.tasks.Keys
      && forall t :: t in s.tasks ==>
           if s.tasks[t].role == role && !s.tasks[t].phase.Finished? then AskedToCancel(s.tasks[t], s'.tasks[t])
           else s'.tasks[t] == s.tasks[t]
  {
    OwnedAlways(steps);
    hide Run;
  }

  /** The role is gone from every table, its queued requests are no longer pending, and nothing of
      another role or another caller has changed. */
  lemma EvictionIsComplete(steps: seq<Step>, role: Role, other: Role, id: MsgId)
    requires other != role
    ensures var s := Run(Empty, steps); var s' := Apply(s, Unregister(role));
      && role !in s'.queues && role !in s'.handlers && role !in s'.loops && role !in s'.dispatchByAgent
      && (other in s'.queues <==> other in s.queues) && (other in s.queues ==> s'.queues[other] == s.queues[other])
      && (other in s'.handlers <==> other in s.handlers)
      && (other in s.handlers ==> s'.handlers[other] == s.handlers[other])
      && (other in s'.loops <==> other in s.loops)
      && (id in s'.pending <==> id in s.pending && !(exists e :: Queued(s.queues, role, e) && e.id == id))
      && (id in s'.futures <==> id in s.futures)
      && (id in s.futures && !(exists e :: Queued(s.queues, role, e) && e.id == id) ==> s'.futures[id] == s.futures[id])
  {
    RunInv(steps);
    hide Run, Inv;
    var s := Run(Empty, steps);
    assert id in Ids(QueueOf(s, role)) <==> exists e :: Queued(s.queues, role, e) && e.id == id;
  }

  /** If the departing caller was cancelled, the unfinished dispatch of its message is asked to cancel,
      running or not; a timeout asks nothing, and nobody else's task changes. */
  lemma DepartedCallerCancels(steps: seq<Step>, id: MsgId)
    requires Enabled(Run(Empty, steps), CallerArm(id))
    ensures var s := Run(Empty, steps); var s' := Apply(s, CallerArm(id));
      && s'.tasks.Keys == s.tasks.Keys
      && forall t :: t in s.tasks ==>
           if s.callers[id].Cancelling? && s.tasks[t].msg == id && !s.tasks[t].phase.Finished?
           then AskedToCancel(s.tasks[t], s'.tasks[t]) else s'.tasks[t] == s.tasks[t]
  {
    RunInv(steps);
    var s := Run(Empty, steps);
    hide Run, QueuePlaces, Numbered, LogOrdered, Answered, Awaited, Accounted, TracksLive, RanIffEntered;
    assert id in s.futures && s.msgs[id].isRequest;
  }

  /** A departing caller is forgotten.  If it was cancelled while its message was queued the message is
      flagged; a dispatched one is not, a timeout flags nothing, and no other message changes. */
  lemma DepartedCallerIsForgotten(steps: seq<Step>, id: MsgId)
    requires Enabled(Run(Empty, steps), CallerArm(id))
    ensures var s := Run(Empty, steps); var s' := Apply(s, CallerArm(id));
      && s'.pending == s.pending - {id} && s'.futures == s.futures && s'.queues == s.queues
      && s'.callers == s.callers[id := Gone] && s'.msgs.Keys == s.msgs.Keys
      && (s.callers[id].Cancelling? && (exists r, e :: Queued(s.queues, r, e) && e.id == id) ==> s'.msgs[id].cancelled)
      && (InFlight(s, id) ==> s'.msgs[id] == s.msgs[id])
      && (forall m :: m in s.msgs && (m != id || s.callers[id].TimingOut?) ==> s'.msgs[m] == s.msgs[m])
  {
    RunInv(steps);
    var s := Run(Empty, steps);
    hide Run, QueuePlaces, Numbered, LogOrdered, Answered, Awaited, Accounted, TracksLive, RanIffEntered;
    assert id in s.futures && s.msgs[id].isRequest;
    if r, e :| Queued(s.queues, r, e) && e.id == id {
      QueuedIsUndispatched(s, r, e);
    }
  }

  lemma QueuedIsUndispatched(s: Bus, r: Role, e: Entry)
    requires Inv(s) && Queued(s.queues, r, e)
    ensures e.id !in s.dispatchTasks
  {
    hide Numbered, LogOrdered, Requests, Answered, Awaited, Accounted, TracksLive, RanIffEntered, Known;
    assert s.place[e.id] == InQueue(r, e);
  }

  // ---- sending and taking -------------------------------------------------

  /** A message is queued for its target alone, behind everything of its priority that is queued there;
      without a target nothing is queued at all. */
  lemma SendQueuesBehind(steps: seq<Step>, id: MsgId, m: Message)
    requires Enabled(Run(Empty, steps), Send(id, m))
    ensures var s := Run(Empty, steps); var s' := Apply(s, Send(id, m));
      && s'.msgs == s.msgs[id := m] && s'.tasks == s.tasks && s'.futures == s.futures && s'.pending == s.pending
      && s'.queues.Keys == s.queues.Keys
      && (forall r, e :: Queued(s.queues, r, e) ==> Queued(s'.queues, r, e))
      && (forall r, e :: Queued(s'.queues, r, e) && !Queued(s.queues, r, e) ==>
            && r == m.target && e.id == id && e.priority == m.priority
            && forall r', f :: Queued(s.queues, r', f) ==> f.seqNo < e.seqNo)
      && (m.target in s.queues <==> exists e :: Queued(s'.queues, m.target, e) && e.id == id)
  {
    RunInv(steps);
    var s := Run(Empty, steps);
    hide Run, TaskPlaces, LogOrdered, Requests, Answered, Awaited, Accounted, TracksLive, Indexed, RanIffEntered, Known;
    SendAdds(s, id, m);
    if m.target !in s.queues {
      assert forall e :: !Queued(s.queues, m.target, e);
    }
  }

  lemma SendAdds(s: Bus, id: MsgId, m: Message)
    ensures var e := Entry(m.priority, s.seqNo + 1, id); var s' := DoSend(s, id, m);
      && (m.target in s.queues ==> Queued(s'.queues, m.target, e))
      && forall r, f :: Queued(s'.queues, r, f) <==> Queued(s.queues, r, f) || (r == m.target && r in s.queues && f == e)
  {
  }

  /** A request outside a shutdown is a send with a fresh, incomplete, pending future and a waiting
      caller; during one it changes nothing. */
  lemma RequestAwaits(steps: seq<Step>, id: MsgId, m: Message)
    requires Enabled(Run(Empty, steps), Request(id, m))
    ensures var s := Run(Empty, steps); var s' := Apply(s, Request(id, m));
      && (s.shuttingDown ==> s' == s)
      && (!s.shuttingDown ==>
            && s'.msgs == s.msgs[id := Message(m.target, m.priority, true, false)]
            && s'.futures == s.futures[id := Future([])] && s'.pending == s.pending + {id}
            && s'.callers == s.callers[id := Waiting]
            && s'.queues == Apply(s, Send(id, m)).queues && s'.tasks == s.tasks)
  {
    hide Run;
  }

  /** The consumer takes the entry that is first by priority, and among equals by the order of sending:
      every other entry of the queue stands strictly behind it. */
  lemma TakesTheFirst(steps: seq<Step>, role: Role, e: Entry, t: TaskId)
    requires Enabled(Run(Empty, steps), Dequeue(role, e, t))
    ensures var s := Run(Empty, steps);
      && Queued(s.queues, role, e)
      && forall f :: Queued(s.queues, role, f) && f != e ==>
           e.priority < f.priority || (e.priority == f.priority && e.seqNo < f.seqNo)
  {
    RunInv(steps);
    hide Run, TaskPlaces, QueuePlaces, LogOrdered, Requests, Answered, Awaited, Accounted, TracksLive, Indexed, RanIffEntered, Known;
    var s := Run(Empty, steps);
    forall f | Queued(s.queues, role, f) && f != e
      ensures e.priority < f.priority || (e.priority == f.priority && e.seqNo < f.seqNo)
    {
      assert Queued(s.queues, role, e) && !Before(f, e);
    }
  }

  /** What is taken leaves the queue; it becomes a task of its role, not yet started, known to the
      live set, to its role's set and (for a request) under its id, unless its caller had cancelled it. */
  lemma TakenIsDispatched(steps: seq<Step>, role: Role, e: Entry, t: TaskId)
    requires Enabled(Run(Empty, steps), Dequeue(role, e, t))
    ensures var s := Run(Empty, steps); var s' := Apply(s, Dequeue(role, e, t));
      && (forall r, f :: Queued(s'.queues, r, f) <==> Queued(s.queues, r, f) && f != e)
      && s'.futures == s.futures && s'.pending == s.pending && s'.msgs == s.msgs
      && (s.msgs[e.id].cancelled ==> s'.tasks == s.tasks)
      && (!s.msgs[e.id].cancelled ==>
            && s'.tasks == s.tasks[t := Task(e.id, role, Created, false)]
            && t in s'.liveDispatches && role in s'.dispatchByAgent && t in s'.dispatchByAgent[role]
            && (s.msgs[e.id].isRequest ==> e.id in s'.dispatchTasks && s'.dispatchTasks[e.id] == t))
  {
    RunInv(steps);
    hide Run, TaskPlaces, LogOrdered, Requests, Answered, Awaited, Accounted, TracksLive, Indexed, RanIffEntered, Known, IsLeast;
    var s := Run(Empty, steps);
    var s' := Apply(s, Dequeue(role, e, t));
    assert IsLeast(e, s.queues[role]);
    LeastIsQueued(e, s.queues[role]);
    assert Queued(s.queues, role, e);
    forall r, f ensures Queued(s'.queues, r, f) <==> Queued(s.queues, r, f) && f != e {
      if Queued(s.queues, r, f) && f.seqNo == e.seqNo {
        assert f == e;
        assert s.place[e.id] == InQueue(r, f) && s.place[e.id] == InQueue(role, e);
      }
    }
  }

  lemma LeastIsQueued(e: Entry, q: set<Entry>)
    requires IsLeast(e, q)
    ensures e in q
  {
  }

  // ---- running ------------------------------------------------------------

  /** A task enters its handler exactly if nobody asked it to cancel and its role has a handler now;
      otherwise it ends at once and answers nobody. */
  lemma StartsExactlyWhen(steps: seq<Step>, t: TaskId)
    requires Enabled(Run(Empty, steps), StartBody(t))
    ensures var s := Run(Empty, steps); var s' := Apply(s, StartBody(t));
      var task := s.tasks[t];
      var enters := !task.cancelRequested && task.role in s.handlers && s.handlers[task.role];
      && s'.futures == s.futures && s'.pending == s.pending && s'.queues == s.queues
      && s'.tasks == s.tasks[t := task.(phase := s'.tasks[t].phase)]
      && (enters <==> s'.tasks[t].phase.Running?) && (!enters ==> s'.tasks[t].phase.Finished?)
      && task.msg !in s.ran && (task.msg in s'.ran <==> enters)
      && (s.msgs[task.msg].isRequest && !enters && !task.cancelRequested ==> task.msg !in s'.dispatchTasks)
      && (forall id :: id in s.dispatchTasks && (id != task.msg || enters || task.cancelRequested) ==>
            id in s'.dispatchTasks && s'.dispatchTasks[id] == s.dispatchTasks[id])
      && forall id :: id != task.msg ==> (id in s'.ran <==> id in s.ran)
  {
    RunInv(steps);
    hide Run, QueuePlaces, Numbered, LogOrdered, Requests, Answered, Awaited, Accounted, TracksLive, Indexed, Known;
  }

  /** How a handler's end reaches its caller: the result, an empty reply for none, and the two errors
      under their own names; never twice, and no one else's future moves. */
  lemma EndingsReachTheCaller(steps: seq<Step>, t: TaskId, o: Outcome)
    requires Enabled(Run(Empty, steps), FinishBody(t, o))
    ensures var s := Run(Empty, steps); var s' := Apply(s, FinishBody(t, o));
      var id := s.tasks[t].msg;
      && s'.tasks == s.tasks[t := Task(id, s.tasks[t].role, Finished(Exited), s.tasks[t].cancelRequested)]
      && s'.queues == s.queues && s'.ran == s.ran && id !in s'.pending
      && s'.futures.Keys == s.futures.Keys
      && (forall i :: i in s.futures && (i != id || s.futures[i].settles != []) ==> s'.futures[i] == s.futures[i])
      && (forall i :: i != id ==> (i in s'.pending <==> i in s.pending))
      && (s.msgs[id].isRequest ==> id !in s'.dispatchTasks)
      && (forall i :: i != id && i in s.dispatchTasks ==> i in s'.dispatchTasks && s'.dispatchTasks[i] == s.dispatchTasks[i])
      && (id in s.futures && s.futures[id].settles == [] ==>
            && (o.Returned? ==> s'.futures[id].settles == [HandlerResult])
            && (o.ReturnedNone? ==> s'.futures[id].settles == [EmptyReply])
            && (o.Raised? ==> s'.futures[id].settles == [HandlerError])
            && (o.Cancelled? ==> s'.futures[id].settles == [HandlerCancelled]))
  {
    RunInv(steps);
    hide Run, QueuePlaces, TaskPlaces, Numbered, LogOrdered, Awaited, TracksLive, Indexed, RanIffEntered, Known;
  }

  /** An answer from outside a dispatch: a pending id is forgotten and its future completed unless it was;
      for any other id nothing happens. */
  lemma RespondCompletes(steps: seq<Step>, id: MsgId, r: Reply)
    ensures var s := Run(Empty, steps); var s' := DoRespond(s, id, r);
      && (id !in s.pending ==> s' == s)
      && (id in s.pending ==>
            && s'.pending == s.pending - {id} && id in s.futures && s'.futures.Keys == s.futures.Keys
            && s'.futures[id].settles == (if s.futures[id].settles == [] then [r] else s.futures[id].settles)
            && (forall i :: i in s.futures && i != id ==> s'.futures[i] == s.futures[i])
            && s'.tasks == s.tasks && s'.queues == s.queues)
  {
    RunInv(steps);
    hide Run, QueuePlaces, TaskPlaces, Numbered, LogOrdered, Requests, Awaited, Accounted, TracksLive, Indexed, RanIffEntered, Known;
  }

  /** A finished task's callbacks take it out of the live set and out of its role's set, and nothing else. */
  lemma CallbacksForget(steps: seq<Step>, t: TaskId)
    requires var s := Run(Empty, steps); t in s.tasks && s.tasks[t].phase.Finished?
    ensures var s := Run(Empty, steps);
      && Apply(s, LiveCallback(t)) == s.(liveDispatches := s.liveDispatches - {t})
      && var s' := Apply(s, TrackedCallback(t));
         s' == s.(dispatchByAgent := s'.dispatchByAgent) && s'.dispatchByAgent.Keys == s.dispatchByAgent.Keys
         && forall r :: r in s.dispatchByAgent ==> s'.dispatchByAgent[r] == s.dispatchByAgent[r] - {t}
  {
    OwnedAlways(steps);
    hide Run;
    var s := Run(Empty, steps);
    forall r | r in s.dispatchByAgent && t in s.dispatchByAgent[r] ensures s.tasks[t].role == r {
      assert OwnedIn(s);
    }
  }

  // ---- shutdown -----------------------------------------------------------

  /** Failing the pending requests completes exactly the incomplete futures, with the shutdown error. */
  lemma ShutdownFailsTheIncomplete(steps: seq<Step>)
    ensures var s := Run(Empty, steps); var s' := Apply(s, FailPending);
      && s'.pending == {} && s'.futures.Keys == s.futures.Keys && s'.queues == s.queues && s'.tasks == s.tasks
      && forall id :: id in s.futures ==>
           s'.futures[id].settles == if s.futures[id].settles == [] then [ShutdownError] else s.futures[id].settles
  {
    RunInv(steps);
    hide Run, QueuePlaces, TaskPlaces, Numbered, LogOrdered, Requests, Awaited, Accounted, TracksLive, Indexed, RanIffEntered, Known;
  }

  /** Registering again only rebinds the handler: whatever is queued stays queued. */
  lemma RegisterKeepsTheQueue(steps: seq<Step>, role: Role, h: bool)
    ensures var s := Run(Empty, steps); var s' := Apply(s, Register(role, h));
      && s'.queues.Keys == s.queues.Keys + {role} && s'.handlers == s.handlers[role := h]
      && (forall r, e :: Queued(s'.queues, r, e) <==> Queued(s.queues, r, e))
      && s'.tasks == s.tasks && s'.futures == s.futures && s'.pending == s.pending
  {
    hide Run;
  }
}
