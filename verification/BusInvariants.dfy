/**
 * What every step of the bus keeps.
 *
 * Each part of the invariant reads only the fields it is about, so a step that
 * leaves those fields alone keeps it for free; the lemmas below treat the steps that
 * change them.  The theorems over runs are in `BusTheorems`.
 */
module BusInvariants {
  import opened BusSpec

  predicate Queued(queues: map<Role, set<Entry>>, r: Role, e: Entry) {
    r in queues && e in queues[r]
  }

  /** Queues and `place` agree on what is queued where. */
  ghost predicate QueuePlaces(queues: map<Role, set<Entry>>, place: map<MsgId, Place>) {
    && (forall r, e :: Queued(queues, r, e) ==> e.id in place && place[e.id] == InQueue(r, e))
    && (forall id :: id in place && place[id].InQueue? ==>
          Queued(queues, place[id].role, place[id].entry) && place[id].entry.id == id)
  }

  /** Tasks and `place` agree on which message each task carries. */
  ghost predicate TaskPlaces(tasks: map<TaskId, Task>, place: map<MsgId, Place>) {
    && (forall t :: t in tasks ==> tasks[t].msg in place && place[tasks[t].msg] == Dispatched(t))
    && (forall id :: id in place && place[id].Dispatched? ==>
          place[id].task in tasks && tasks[place[id].task].msg == id)
  }

  /** Sequence numbers of queued entries are issued, and no two entries share one. */
  ghost predicate Numbered(queues: map<Role, set<Entry>>, seqNo: nat) {
    && (forall r, e :: Queued(queues, r, e) ==> e.seqNo <= seqNo)
    && (forall r, e, r', e' :: Queued(queues, r, e) && Queued(queues, r', e') && e.seqNo == e'.seqNo ==> e == e')
  }

  /** Equal-priority messages of a role left in send order, and what is queued is younger still. */
  ghost predicate LogOrdered(log: seq<Popped>, queues: map<Role, set<Entry>>, seqNo: nat) {
    && (forall i :: 0 <= i < |log| ==> log[i].entry.seqNo <= seqNo)
    && (forall i, e :: 0 <= i < |log| && Queued(queues, log[i].role, e) && e.priority == log[i].entry.priority ==>
          log[i].entry.seqNo < e.seqNo)
    && (forall i, j :: 0 <= i < j < |log| && log[i].role == log[j].role
          && log[i].entry.priority == log[j].entry.priority
          ==> log[i].entry.seqNo < log[j].entry.seqNo)
  }

  ghost predicate Requests(futures: map<MsgId, Future>, callers: map<MsgId, Caller>, msgs: map<MsgId, Message>) {
    && futures.Keys == callers.Keys
    && (forall id :: id in futures ==> id in msgs && msgs[id].isRequest)
  }

  /** A future is completed at most once; one that is not complete is still pending. */
  ghost predicate Answered(futures: map<MsgId, Future>, pending: set<MsgId>) {
    && pending <= futures.Keys
    && (forall id :: id in futures ==> |futures[id].settles| <= 1)
    && (forall id :: id in futures && !Settled(futures[id]) ==> id in pending)
    && (forall id :: id in pending && Settled(futures[id]) ==> futures[id].settles[0] == CallerGone)
  }

  /** A pending id has a caller that has not gone; a waiting caller's future was not cancelled. */
  ghost predicate Awaited(callers: map<MsgId, Caller>, futures: map<MsgId, Future>, pending: set<MsgId>) {
    && (forall id :: id in pending ==> id in callers && !callers[id].Gone?)
    && (forall id :: id in callers && callers[id].Waiting? && id in pending && id in futures ==> !Settled(futures[id]))
  }

  ghost predicate Unanswered(id: MsgId, place: map<MsgId, Place>, tasks: map<TaskId, Task>) {
    && id in place && !place[id].Discarded? && !place[id].Drained?
    && (place[id].Dispatched? ==> place[id].task in tasks && tasks[place[id].task].phase != Finished(Exited))
  }

  /** A pending id is still on its way, or its message was lost before a handler saw it. */
  ghost predicate Accounted(pending: set<MsgId>, place: map<MsgId, Place>, tasks: map<TaskId, Task>, msgs: map<MsgId, Message>) {
    forall id :: id in pending ==> Unanswered(id, place, tasks) && id in msgs && !msgs[id].cancelled
  }

  ghost predicate TracksLive(live: set<TaskId>, tasks: map<TaskId, Task>) {
    && live <= tasks.Keys
    && (forall t :: t in tasks && !IsFinished(tasks[t]) ==> t in live)
  }

  /** `_dispatch_tasks` finds the unfinished task of every request. */
  ghost predicate Indexed(index: map<MsgId, TaskId>, tasks: map<TaskId, Task>, msgs: map<MsgId, Message>) {
    && (forall id :: id in index ==> index[id] in tasks && tasks[index[id]].msg == id)
    && (forall t :: t in tasks && !IsFinished(tasks[t]) && tasks[t].msg in msgs && msgs[tasks[t].msg].isRequest ==>
          tasks[t].msg in index && index[tasks[t].msg] == t)
  }

  ghost predicate Entered(task: Task) {
    task.phase.Running? || task.phase == Finished(Exited)
  }

  ghost predicate EnteredAt(id: MsgId, place: map<MsgId, Place>, tasks: map<TaskId, Task>) {
    id in place && place[id].Dispatched? && place[id].task in tasks && Entered(tasks[place[id].task])
  }

  /** The messages handed to a handler are exactly those whose task entered its body. */
  ghost predicate RanIffEntered(ran: set<MsgId>, place: map<MsgId, Place>, tasks: map<TaskId, Task>) {
    && (forall id :: id in ran ==> EnteredAt(id, place, tasks))
    && (forall t :: t in tasks && Entered(tasks[t]) ==> tasks[t].msg in ran)
  }

  /** The per-role sets hold only tasks that were created. */
  ghost predicate Known(byAgent: map<Role, set<TaskId>>, tasks: map<TaskId, Task>) {
    forall r :: r in byAgent ==> byAgent[r] <= tasks.Keys
  }

  ghost predicate Inv(s: Bus) {
    && s.place.Keys == s.msgs.Keys
    && QueuePlaces(s.queues, s.place)
    && TaskPlaces(s.tasks, s.place)
    && Numbered(s.queues, s.seqNo)
    && LogOrdered(s.log, s.queues, s.seqNo)
    && Requests(s.futures, s.callers, s.msgs)
    && Answered(s.futures, s.pending)
    && Awaited(s.callers, s.futures, s.pending)
    && Accounted(s.pending, s.place, s.tasks, s.msgs)
    && TracksLive(s.liveDispatches, s.tasks)
    && Indexed(s.dispatchTasks, s.tasks, s.msgs)
    && RanIffEntered(s.ran, s.place, s.tasks)
    && Known(s.dispatchByAgent, s.tasks)
  }

  // ---- the parts, one change at a time --------------------------------------

  lemma QueuesAdd(queues: map<Role, set<Entry>>, place: map<MsgId, Place>, seqNo: nat, log: seq<Popped>, r: Role, e: Entry)
    requires QueuePlaces(queues, place) && Numbered(queues, seqNo) && LogOrdered(log, queues, seqNo)
    requires r in queues && e.id !in place && e.seqNo == seqNo + 1
    ensures var queues' := queues[r := queues[r] + {e}];
      && QueuePlaces(queues', place[e.id := InQueue(r, e)])
      && Numbered(queues', seqNo + 1) && LogOrdered(log, queues', seqNo + 1)
  {
    var queues' := queues[r := queues[r] + {e}];
    assert forall r', f :: Queued(queues', r', f) <==> (r' == r && f == e) || Queued(queues, r', f);
  }

  lemma QueuesRemove(queues: map<Role, set<Entry>>, place: map<MsgId, Place>, seqNo: nat, r: Role, e: Entry, p: Place)
    requires QueuePlaces(queues, place) && Numbered(queues, seqNo)
    requires Queued(queues, r, e) && !p.InQueue?
    ensures var queues' := queues[r := queues[r] - {e}]; QueuePlaces(queues', place[e.id := p]) && Numbered(queues', seqNo)
  {
    var queues' := queues[r := queues[r] - {e}];
    assert forall r', f :: Queued(queues', r', f) <==> Queued(queues, r', f) && !(r' == r && f == e);
  }

  lemma LogAdd(queues: map<Role, set<Entry>>, seqNo: nat, log: seq<Popped>, r: Role, e: Entry)
    requires Numbered(queues, seqNo) && LogOrdered(log, queues, seqNo)
    requires r in queues && IsLeast(e, queues[r])
    ensures LogOrdered(log + [Popped(r, e)], queues[r := queues[r] - {e}], seqNo)
  {
    var queues' := queues[r := queues[r] - {e}];
    assert Queued(queues, r, e);
    assert forall r', f :: Queued(queues', r', f) <==> Queued(queues, r', f) && !(r' == r && f == e);
    forall f | Queued(queues', r, f) && f.priority == e.priority ensures e.seqNo < f.seqNo {
      assert !Before(f, e);
    }
  }

  lemma TasksMoved(tasks: map<TaskId, Task>, place: map<MsgId, Place>, ran: set<MsgId>, id: MsgId, p: Place)
    requires TaskPlaces(tasks, place) && RanIffEntered(ran, place, tasks)
    requires !p.Dispatched? && (id in place ==> !place[id].Dispatched?)
    ensures TaskPlaces(tasks, place[id := p]) && RanIffEntered(ran, place[id := p], tasks)
  {
  }

  lemma TasksAdd(tasks: map<TaskId, Task>, place: map<MsgId, Place>, ran: set<MsgId>, t: TaskId, task: Task)
    requires TaskPlaces(tasks, place) && RanIffEntered(ran, place, tasks)
    requires t !in tasks && task.phase.Created? && task.msg in place && !place[task.msg].Dispatched?
    ensures var place' := place[task.msg := Dispatched(t)]; var tasks' := tasks[t := task];
      TaskPlaces(tasks', place') && RanIffEntered(ran, place', tasks')
  {
    var place' := place[task.msg := Dispatched(t)];
    var tasks' := tasks[t := task];
    forall id | id in ran ensures EnteredAt(id, place', tasks') {
      assert EnteredAt(id, place, tasks);
    }
  }

  lemma AccountedMoved(pending: set<MsgId>, place: map<MsgId, Place>, tasks: map<TaskId, Task>, msgs: map<MsgId, Message>,
                       id: MsgId, p: Place)
    requires Accounted(pending, place, tasks, msgs)
    requires id in pending ==> p.InQueue? || p.NoTarget?
    ensures Accounted(pending, place[id := p], tasks, msgs)
  {
    forall i | i in pending ensures Unanswered(i, place[id := p], tasks) && i in msgs && !msgs[i].cancelled {
      assert Unanswered(i, place, tasks);
    }
  }

  lemma AccountedAdd(pending: set<MsgId>, place: map<MsgId, Place>, tasks: map<TaskId, Task>, msgs: map<MsgId, Message>,
                     t: TaskId, task: Task)
    requires Accounted(pending, place, tasks, msgs) && t !in tasks && task.phase.Created?
    ensures Accounted(pending, place[task.msg := Dispatched(t)], tasks[t := task], msgs)
  {
    var place' := place[task.msg := Dispatched(t)];
    var tasks' := tasks[t := task];
    forall i | i in pending ensures Unanswered(i, place', tasks') && i in msgs && !msgs[i].cancelled {
      assert Unanswered(i, place, tasks);
    }
  }

  lemma IndexAdd(index: map<MsgId, TaskId>, tasks: map<TaskId, Task>, msgs: map<MsgId, Message>, place: map<MsgId, Place>,
                 live: set<TaskId>, t: TaskId, task: Task)
    requires Indexed(index, tasks, msgs) && TracksLive(live, tasks) && TaskPlaces(tasks, place)
    requires t !in tasks && task.msg in msgs && task.msg in place && !place[task.msg].Dispatched?
    ensures Indexed(if msgs[task.msg].isRequest then index[task.msg := t] else index, tasks[t := task], msgs)
    ensures TracksLive(live + {t}, tasks[t := task])
  {
  }

  /** Replacing a task by one for the same message. */
  lemma TasksChange(tasks: map<TaskId, Task>, place: map<MsgId, Place>, t: TaskId, task: Task)
    requires TaskPlaces(tasks, place) && t in tasks && task.msg == tasks[t].msg
    ensures TaskPlaces(tasks[t := task], place)
  {
  }

  lemma RanChange(tasks: map<TaskId, Task>, place: map<MsgId, Place>, ran: set<MsgId>, t: TaskId, task: Task)
    requires TaskPlaces(tasks, place) && RanIffEntered(ran, place, tasks)
    requires t in tasks && task.msg == tasks[t].msg && (Entered(tasks[t]) ==> Entered(task))
    ensures RanIffEntered(if Entered(task) then ran + {task.msg} else ran, place, tasks[t := task])
  {
    var tasks' := tasks[t := task];
    forall id | id in ran ensures EnteredAt(id, place, tasks') {
      assert EnteredAt(id, place, tasks);
    }
  }

  lemma KnownMore(byAgent: map<Role, set<TaskId>>, tasks: map<TaskId, Task>, more: map<TaskId, Task>)
    requires Known(byAgent, tasks) && tasks.Keys <= more.Keys
    ensures Known(byAgent, more)
  {
  }

  lemma KnownAdd(byAgent: map<Role, set<TaskId>>, tasks: map<TaskId, Task>, r: Role, ts: set<TaskId>, t: TaskId, task: Task)
    requires Known(byAgent, tasks) && (r in byAgent ==> ts == byAgent[r]) && (r !in byAgent ==> ts == {})
    ensures Known(byAgent[r := ts + {t}], tasks[t := task])
  {
  }

  lemma KnownLess(byAgent: map<Role, set<TaskId>>, tasks: map<TaskId, Task>, r: Role)
    requires Known(byAgent, tasks)
    ensures Known(byAgent - {r}, tasks)
    ensures r in byAgent ==> forall t :: Known(byAgent[r := byAgent[r] - {t}], tasks)
  {
  }

  lemma AccountedChange(pending: set<MsgId>, place: map<MsgId, Place>, tasks: map<TaskId, Task>, msgs: map<MsgId, Message>,
                        t: TaskId, task: Task)
    requires Accounted(pending, place, tasks, msgs) && TaskPlaces(tasks, place)
    requires t in tasks && task.msg == tasks[t].msg
    ensures Accounted(if task.phase == Finished(Exited) then pending - {task.msg} else pending, place, tasks[t := task], msgs)
  {
    var tasks' := tasks[t := task];
    forall i | i in pending && (task.phase == Finished(Exited) ==> i != task.msg)
      ensures Unanswered(i, place, tasks') && i in msgs && !msgs[i].cancelled
    {
      assert Unanswered(i, place, tasks);
    }
  }

  lemma IndexChange(index: map<MsgId, TaskId>, tasks: map<TaskId, Task>, msgs: map<MsgId, Message>, place: map<MsgId, Place>,
                    live: set<TaskId>, t: TaskId, task: Task)
    requires Indexed(index, tasks, msgs) && TracksLive(live, tasks) && TaskPlaces(tasks, place)
    requires t in tasks && task.msg == tasks[t].msg && (IsFinished(tasks[t]) ==> IsFinished(task))
    ensures Indexed(index, tasks[t := task], msgs) && TracksLive(live, tasks[t := task])
    ensures IsFinished(task) ==> Indexed(index - {task.msg}, tasks[t := task], msgs)
  {
  }

  lemma CancelKeeps(s: Bus, ts: set<TaskId>)
    requires Inv(s)
    ensures var tasks' := CancelTasks(s.tasks, ts);
      && TaskPlaces(tasks', s.place) && Accounted(s.pending, s.place, tasks', s.msgs)
      && TracksLive(s.liveDispatches, tasks') && Indexed(s.dispatchTasks, tasks', s.msgs)
      && RanIffEntered(s.ran, s.place, tasks')
  {
    hide QueuePlaces, Numbered, LogOrdered, Requests, Answered, Awaited;
    var tasks' := CancelTasks(s.tasks, ts);
    forall i | i in s.pending ensures Unanswered(i, s.place, tasks') {
      assert Unanswered(i, s.place, s.tasks);
    }
    forall id | id in s.ran ensures EnteredAt(id, s.place, tasks') {
      assert EnteredAt(id, s.place, s.tasks);
    }
  }

  /** Completing the futures of ids that leave `pending`. */
  lemma AnswerKeeps(s: Bus, ids: set<MsgId>, r: Reply)
    requires Inv(s)
    ensures var futures' := SettleAll(s.futures, ids * s.pending, r); var pending' := s.pending - ids;
      && Answered(futures', pending') && Awaited(s.callers, futures', pending')
      && Requests(futures', s.callers, s.msgs) && Accounted(pending', s.place, s.tasks, s.msgs)
  {
    hide QueuePlaces, TaskPlaces, Numbered, LogOrdered, TracksLive, Indexed, RanIffEntered, Known;
  }

  lemma FewerPending(pending: set<MsgId>, ids: set<MsgId>, place: map<MsgId, Place>, tasks: map<TaskId, Task>, msgs: map<MsgId, Message>)
    requires Accounted(pending, place, tasks, msgs)
    ensures Accounted(pending - ids, place, tasks, msgs)
  {
  }

  lemma RespondIsAnswer(s: Bus, id: MsgId, r: Reply)
    ensures DoRespond(s, id, r).futures == SettleAll(s.futures, {id} * s.pending, r)
  {
  }

  // ---- every step -------------------------------------------------------------

  lemma KeptByRegister(s: Bus, role: Role, h: bool)
    requires Inv(s)
    ensures Inv(DoRegister(s, role, h))
  {
    hide TaskPlaces, Requests, Answered, Awaited, Accounted, TracksLive, Indexed, RanIffEntered, Known;
    var s' := DoRegister(s, role, h);
    assert forall r, e :: Queued(s'.queues, r, e) == Queued(s.queues, r, e);
  }

  lemma KeptByUnregister(s: Bus, role: Role)
    requires Inv(s)
    ensures Inv(DoUnregister(s, role))
  {
    hide QueuePlaces, TaskPlaces, Numbered, LogOrdered, Requests, Answered, Awaited, Accounted, TracksLive, Indexed, RanIffEntered, Known;
    var s' := DoUnregister(s, role);
    var ids := Ids(QueueOf(s, role));
    QueuesDrop(s.queues, s.place, s.seqNo, s.log, role, ids);
    CancelKeeps(s, Tracked(s, role));
    AnswerKeeps(s, ids, HandlerCancelled);
    FewerPending(s.pending, ids, s.place, s'.tasks, s.msgs);
    KnownMore(s.dispatchByAgent, s.tasks, s'.tasks);
    KnownLess(s.dispatchByAgent, s'.tasks, role);
    DrainKeeps(s.(tasks := s'.tasks, pending := s'.pending, futures := s'.futures), ids);
  }

  lemma QueuesDrop(queues: map<Role, set<Entry>>, place: map<MsgId, Place>, seqNo: nat, log: seq<Popped>, role: Role, ids: set<MsgId>)
    requires QueuePlaces(queues, place) && Numbered(queues, seqNo) && LogOrdered(log, queues, seqNo)
    requires ids == if role in queues then Ids(queues[role]) else {}
    ensures var place' := DrainPlaces(place, ids);
      && QueuePlaces(queues - {role}, place')
      && Numbered(queues - {role}, seqNo) && LogOrdered(log, queues - {role}, seqNo)
    ensures forall id :: id in ids ==> id in place && place[id].InQueue?
  {
    assert forall r, e :: Queued(queues - {role}, r, e) <==> r != role && Queued(queues, r, e);
    forall id ensures id in ids <==> id in place && place[id].InQueue? && place[id].role == role {
      if id in ids {
        var e :| e in queues[role] && e.id == id;
        assert Queued(queues, role, e);
      }
      if id in place && place[id].InQueue? && place[id].role == role {
        assert Queued(queues, role, place[id].entry);
      }
    }
  }

  lemma DrainKeeps(s: Bus, ids: set<MsgId>)
    requires TaskPlaces(s.tasks, s.place) && RanIffEntered(s.ran, s.place, s.tasks)
    requires Accounted(s.pending, s.place, s.tasks, s.msgs) && s.pending !! ids
    requires forall id :: id in ids ==> id in s.place && s.place[id].InQueue?
    ensures var place' := DrainPlaces(s.place, ids);
      TaskPlaces(s.tasks, place') && RanIffEntered(s.ran, place', s.tasks) && Accounted(s.pending, place', s.tasks, s.msgs)
  {
    var place' := DrainPlaces(s.place, ids);
    forall i | i in s.pending ensures Unanswered(i, place', s.tasks) {
      assert Unanswered(i, s.place, s.tasks);
    }
    forall i | i in s.ran ensures EnteredAt(i, place', s.tasks) {
      assert EnteredAt(i, s.place, s.tasks);
    }
  }

  lemma KeptByFailPending(s: Bus)
    requires Inv(s)
    ensures Inv(DoFailPending(s))
  {
    hide QueuePlaces, TaskPlaces, Numbered, LogOrdered, Requests, Answered, Awaited, Accounted, TracksLive, Indexed, RanIffEntered, Known;
    AnswerKeeps(s, s.pending, ShutdownError);
    assert s.pending * s.pending == s.pending && s.pending - s.pending == {};
  }

  lemma FreshId(s: Bus, id: MsgId)
    requires Inv(s) && id !in s.msgs
    ensures id !in s.place && id !in s.futures && id !in s.callers && id !in s.pending
  {
    hide QueuePlaces, TaskPlaces, Numbered, LogOrdered, Awaited, Accounted, TracksLive, Indexed, RanIffEntered, Known;
  }

  lemma FreshMessage(s: Bus, id: MsgId, m: Message)
    requires Inv(s) && id !in s.msgs
    ensures var msgs' := s.msgs[id := m];
      && Requests(s.futures, s.callers, msgs') && Accounted(s.pending, s.place, s.tasks, msgs')
      && Indexed(s.dispatchTasks, s.tasks, msgs')
  {
    hide QueuePlaces, Numbered, LogOrdered, Awaited, TracksLive, RanIffEntered, Known;
  }

  lemma KeptBySend(s: Bus, id: MsgId, m: Message)
    requires Inv(s) && id !in s.msgs
    ensures Inv(DoSend(s, id, m))
  {
    hide DoSend;
    hide QueuePlaces, TaskPlaces, Numbered, LogOrdered, Requests, Answered, Awaited, Accounted, TracksLive, Indexed, RanIffEntered, Known;
    FreshId(s, id);
    FreshMessage(s, id, m);
    SendPlaces(s, id, m);
    var p := DoSend(s, id, m).place[id];
    TasksMoved(s.tasks, s.place, s.ran, id, p);
    AccountedMoved(s.pending, s.place, s.tasks, s.msgs[id := m], id, p);
  }

  lemma SendPlaces(s: Bus, id: MsgId, m: Message)
    requires QueuePlaces(s.queues, s.place) && Numbered(s.queues, s.seqNo) && LogOrdered(s.log, s.queues, s.seqNo)
    requires id !in s.place
    ensures var s' := DoSend(s, id, m);
      && QueuePlaces(s'.queues, s'.place) && Numbered(s'.queues, s'.seqNo) && LogOrdered(s'.log, s'.queues, s'.seqNo)
      && s' == s.(msgs := s.msgs[id := m], queues := s'.queues, seqNo := s'.seqNo, place := s'.place)
      && id in s'.place && s'.place == s.place[id := s'.place[id]]
      && (s'.place[id].InQueue? || s'.place[id].NoTarget?)
  {
    if Accepts(s, m.target) {
      hide QueuePlaces, Numbered, LogOrdered;
      QueuesAdd(s.queues, s.place, s.seqNo, s.log, m.target, Entry(m.priority, s.seqNo + 1, id));
    }
  }

  /** `request` records its future before it sends. */
  lemma KeptByRequest(s: Bus, id: MsgId, m: Message)
    requires Inv(s) && id !in s.msgs && !m.cancelled
    ensures Inv(DoRequest(s, id, m))
  {
    hide DoSend;
    hide QueuePlaces, TaskPlaces, Numbered, LogOrdered, Requests, Answered, Awaited, Accounted, TracksLive, Indexed, RanIffEntered, Known;
    if !s.shuttingDown {
      var m' := m.(isRequest := true);
      FreshId(s, id);
      FreshMessage(s, id, m');
      var s0 := s.(futures := s.futures[id := Future([])],
                   callers := s.callers[id := Waiting],
                   pending := s.pending + {id});
      SendPlaces(s0, id, m');
      var p := DoSend(s0, id, m').place[id];
      TasksMoved(s.tasks, s.place, s.ran, id, p);
      AccountedMoved(s.pending, s.place, s.tasks, s.msgs[id := m'], id, p);
      NewFuture(s, id, m', p);
    }
  }

  lemma NewFuture(s: Bus, id: MsgId, m: Message, p: Place)
    requires Inv(s) && id !in s.msgs && !m.cancelled && m.isRequest && (p.InQueue? || p.NoTarget?)
    ensures var futures' := s.futures[id := Future([])]; var callers' := s.callers[id := Waiting];
      && Requests(futures', callers', s.msgs[id := m])
      && Answered(futures', s.pending + {id})
      && Awaited(callers', futures', s.pending + {id})
      && Accounted(s.pending + {id}, s.place[id := p], s.tasks, s.msgs[id := m])
  {
    hide QueuePlaces, TaskPlaces, Numbered, LogOrdered, TracksLive, Indexed, RanIffEntered, Known;
    FreshId(s, id);
    forall i | i in s.pending + {id} ensures Unanswered(i, s.place[id := p], s.tasks) {
      if i != id {
        assert Unanswered(i, s.place, s.tasks);
      }
    }
  }

  lemma KeptByCallerArm(s: Bus, id: MsgId)
    requires Inv(s) && id in s.callers && id in s.msgs && id in s.futures && Settled(s.futures[id])
    ensures Inv(DoCallerArm(s, id))
  {
    hide QueuePlaces, TaskPlaces, Numbered, LogOrdered, Requests, Answered, Awaited, Accounted, TracksLive, Indexed, RanIffEntered, Known;
    ArmAnswers(s, id);
    if !s.callers[id].TimingOut? {
      if id in s.dispatchTasks {
        var s1 := s.(pending := s.pending - {id}, callers := s.callers[id := Gone]);
        CancelKeeps(s1, {s.dispatchTasks[id]});
        KnownMore(s.dispatchByAgent, s.tasks, CancelTasks(s.tasks, {s.dispatchTasks[id]}));
      } else {
        FlagKeeps(s, id);
      }
    }
  }

  lemma ArmAnswers(s: Bus, id: MsgId)
    requires Inv(s) && id in s.callers && id in s.futures && Settled(s.futures[id])
    ensures var pending' := s.pending - {id}; var callers' := s.callers[id := Gone];
      && Answered(s.futures, pending') && Awaited(callers', s.futures, pending')
      && Requests(s.futures, callers', s.msgs) && Accounted(pending', s.place, s.tasks, s.msgs)
  {
    hide QueuePlaces, TaskPlaces, Numbered, LogOrdered, TracksLive, Indexed, RanIffEntered, Known;
  }

  lemma FlagKeeps(s: Bus, id: MsgId)
    requires Inv(s) && id in s.callers && id in s.msgs
    ensures var msgs' := s.msgs[id := s.msgs[id].(cancelled := true)];
      && Requests(s.futures, s.callers[id := Gone], msgs') && Accounted(s.pending - {id}, s.place, s.tasks, msgs')
      && Indexed(s.dispatchTasks, s.tasks, msgs')
  {
    hide QueuePlaces, TaskPlaces, Numbered, LogOrdered, Answered, Awaited, TracksLive, RanIffEntered, Known;
  }

  lemma QueuedPlace(s: Bus, role: Role, e: Entry)
    requires QueuePlaces(s.queues, s.place) && role in s.queues && e in s.queues[role]
    ensures Queued(s.queues, role, e) && e.id in s.place && s.place[e.id] == InQueue(role, e)
  {
    assert Queued(s.queues, role, e);
  }

  lemma KeptByDequeue(s: Bus, role: Role, e: Entry, t: TaskId)
    requires Inv(s) && role in s.queues && IsLeast(e, s.queues[role]) && e.id in s.msgs && t !in s.tasks
    ensures Inv(DoDequeue(s, role, e, t))
  {
    hide QueuePlaces, TaskPlaces, Numbered, LogOrdered, Requests, Answered, Awaited, Accounted, TracksLive, Indexed, RanIffEntered, Known;
    QueuedPlace(s, role, e);
    LogAdd(s.queues, s.seqNo, s.log, role, e);
    if s.msgs[e.id].cancelled {
      QueuesRemove(s.queues, s.place, s.seqNo, role, e, Discarded);
      TasksMoved(s.tasks, s.place, s.ran, e.id, Discarded);
      CancelledNotPending(s, e.id);
      AccountedMoved(s.pending, s.place, s.tasks, s.msgs, e.id, Discarded);
    } else {
      var task := Task(e.id, role, Created, false);
      QueuesRemove(s.queues, s.place, s.seqNo, role, e, Dispatched(t));
      TasksAdd(s.tasks, s.place, s.ran, t, task);
      AccountedAdd(s.pending, s.place, s.tasks, s.msgs, t, task);
      IndexAdd(s.dispatchTasks, s.tasks, s.msgs, s.place, s.liveDispatches, t, task);
      KnownAdd(s.dispatchByAgent, s.tasks, role, Tracked(s, role), t, task);
    }
  }

  lemma CancelledNotPending(s: Bus, id: MsgId)
    requires Accounted(s.pending, s.place, s.tasks, s.msgs) && id in s.msgs && s.msgs[id].cancelled
    ensures id !in s.pending
  {
  }

  lemma KeptByStartBody(s: Bus, t: TaskId)
    requires Inv(s) && t in s.tasks && s.tasks[t].phase.Created? && s.tasks[t].msg in s.msgs
    ensures Inv(DoStartBody(s, t))
  {
    hide QueuePlaces, TaskPlaces, Numbered, LogOrdered, Requests, Answered, Awaited, Accounted, TracksLive, Indexed, RanIffEntered, Known;
    var task := s.tasks[t].(phase := if s.tasks[t].cancelRequested then Finished(Unstarted)
                                     else if HasHandler(s, s.tasks[t].role) then Running else Finished(NoHandler));
    TasksChange(s.tasks, s.place, t, task);
    RanChange(s.tasks, s.place, s.ran, t, task);
    AccountedChange(s.pending, s.place, s.tasks, s.msgs, t, task);
    IndexChange(s.dispatchTasks, s.tasks, s.msgs, s.place, s.liveDispatches, t, task);
    KnownMore(s.dispatchByAgent, s.tasks, s.tasks[t := task]);
  }

  lemma KeptByFinishBody(s: Bus, t: TaskId, o: Outcome)
    requires Inv(s) && t in s.tasks && s.tasks[t].phase.Running? && s.tasks[t].msg in s.msgs
    ensures Inv(DoFinishBody(s, t, o))
  {
    hide QueuePlaces, TaskPlaces, Numbered, LogOrdered, Requests, Answered, Awaited, Accounted, TracksLive, Indexed, RanIffEntered, Known;
    var id := s.tasks[t].msg;
    var task := s.tasks[t].(phase := Finished(Exited));
    TasksChange(s.tasks, s.place, t, task);
    RanChange(s.tasks, s.place, s.ran, t, task);
    RanAlready(s, t);
    AccountedChange(s.pending, s.place, s.tasks, s.msgs, t, task);
    IndexChange(s.dispatchTasks, s.tasks, s.msgs, s.place, s.liveDispatches, t, task);
    KnownMore(s.dispatchByAgent, s.tasks, s.tasks[t := task]);
    AnswerKeeps(s, {id}, ReplyFor(o));
    RespondIsAnswer(s, id, ReplyFor(o));
    if !s.msgs[id].isRequest {
      OnlyRequestsPend(s, id);
      assert s.pending - {id} == s.pending;
    }
  }

  lemma RanAlready(s: Bus, t: TaskId)
    requires RanIffEntered(s.ran, s.place, s.tasks) && t in s.tasks && s.tasks[t].phase.Running?
    ensures s.ran + {s.tasks[t].msg} == s.ran
  {
  }

  lemma OnlyRequestsPend(s: Bus, id: MsgId)
    requires Inv(s) && id in s.msgs && !s.msgs[id].isRequest
    ensures id !in s.pending
  {
    hide QueuePlaces, TaskPlaces, Numbered, LogOrdered, Awaited, Accounted, TracksLive, Indexed, RanIffEntered, Known;
  }

  lemma KeptByCallback(s: Bus, t: TaskId)
    requires Inv(s) && t in s.tasks && IsFinished(s.tasks[t])
    ensures Inv(Apply(s, LiveCallback(t))) && Inv(Apply(s, TrackedCallback(t)))
  {
    hide QueuePlaces, TaskPlaces, Numbered, LogOrdered, Requests, Answered, Awaited, Accounted, Indexed, RanIffEntered, Known;
    KnownLess(s.dispatchByAgent, s.tasks, s.tasks[t].role);
  }

  lemma KeptByInterrupt(s: Bus, id: MsgId, c: Caller)
    requires Inv(s) && id in s.callers && s.callers[id].Waiting? && (c.Cancelling? || c.TimingOut?)
    ensures Inv(s.(callers := s.callers[id := c]))
  {
    hide QueuePlaces, TaskPlaces, Numbered, LogOrdered, Accounted, TracksLive, Indexed, RanIffEntered, Known;
  }

  lemma KeptByCancelFuture(s: Bus, id: MsgId)
    requires Inv(s) && id in s.callers && (s.callers[id].Cancelling? || s.callers[id].TimingOut?)
    ensures Inv(s.(futures := Settle(s.futures, id, CallerGone)))
  {
    hide QueuePlaces, TaskPlaces, Numbered, LogOrdered, Accounted, TracksLive, Indexed, RanIffEntered, Known;
  }

  lemma KeptByReturn(s: Bus, id: MsgId)
    requires Inv(s) && id in s.callers && id in s.futures
    requires Settled(s.futures[id]) && s.futures[id].settles[0] != CallerGone
    ensures Inv(s.(callers := s.callers[id := Gone]))
  {
    hide QueuePlaces, TaskPlaces, Numbered, LogOrdered, Accounted, TracksLive, Indexed, RanIffEntered, Known;
  }

  /** Every step, whatever it is, keeps the whole invariant. */
  lemma InvKept(s: Bus, step: Step)
    requires Inv(s)
    ensures Inv(Apply(s, step))
  {
    hide QueuePlaces, TaskPlaces, Numbered, LogOrdered, Requests, Answered, Awaited, Accounted, TracksLive, Indexed, RanIffEntered, Known;
    if Enabled(s, step) {
      match step
      case Register(role, h) => KeptByRegister(s, role, h);
      case StartLoop(_) =>
      case StopLoop(_) =>
      case Unregister(role) => KeptByUnregister(s, role);
      case BeginShutdown =>
      case FailPending => KeptByFailPending(s);
      case Send(id, m) => KeptBySend(s, id, m);
      case Request(id, m) => KeptByRequest(s, id, m);
      case Interrupt(id, timeout) => KeptByInterrupt(s, id, if timeout then TimingOut else Cancelling);
      case CancelFuture(id) => KeptByCancelFuture(s, id);
      case CallerArm(id) => KeptByCallerArm(s, id);
      case CallerReturn(id) => KeptByReturn(s, id);
      case Dequeue(role, e, t) => KeptByDequeue(s, role, e, t);
      case StartBody(t) => KeptByStartBody(s, t);
      case FinishBody(t, o) => KeptByFinishBody(s, t, o);
      case LiveCallback(t) => KeptByCallback(s, t);
      case TrackedCallback(t) => KeptByCallback(s, t);
    }
  }

  /** Hence it holds after any run. */
  lemma {:induction false} InvAlways(s: Bus, steps: seq<Step>)
    requires Inv(s)
    ensures Inv(Run(s, steps))
    decreases |steps|
  {
    if steps != [] {
      InvAlways(s, steps[..|steps| - 1]);
      InvKept(Run(s, steps[..|steps| - 1]), steps[|steps| - 1]);
    }
  }
}
