/**
 * The bus object: its fields are updated in place, and every method leaves the state the
 * step function of the same name gives.  `BusTheorems` is about runs of those functions.
 */
module MessageBusModule {
  import opened BusSpec
  import opened BusInvariants

  class MessageBus {
    var queues: map<Role, set<Entry>>
    var pending: set<MsgId>
    var handlers: map<Role, bool>
    var dispatchTasks: map<MsgId, TaskId>
    var dispatchByAgent: map<Role, set<TaskId>>
    var liveDispatches: set<TaskId>
    var loops: set<Role>
    var shuttingDown: bool
    var seqNo: nat

    // The objects the fields point to.
    var msgs: map<MsgId, Message>
    var futures: map<MsgId, Future>
    var callers: map<MsgId, Caller>
    var tasks: map<TaskId, Task>

    ghost var place: map<MsgId, Place>
    ghost var ran: set<MsgId>
    ghost var log: seq<Popped>

    ghost function View(): Bus
      reads this
    {
      Bus(queues, pending, handlers, dispatchTasks, dispatchByAgent, liveDispatches, loops, shuttingDown, seqNo,
          msgs, futures, callers, tasks, place, ran, log)
    }

    ghost predicate Valid()
      reads this
    {
      Inv(View())
    }

    /** What the methods need of a valid bus: ids and task references lead somewhere. */
    lemma Pointers()
      requires Valid()
      ensures pending <= futures.Keys
      ensures forall id :: id in dispatchTasks ==> dispatchTasks[id] in tasks
      ensures forall r, e :: r in queues && e in queues[r] ==> e.id in msgs
      ensures forall r :: r in dispatchByAgent ==> dispatchByAgent[r] <= tasks.Keys
    {
      hide TaskPlaces, Numbered, LogOrdered, Requests, Awaited, Accounted, TracksLive, RanIffEntered;
      forall r, e | r in queues && e in queues[r] ensures e.id in msgs {
        assert Queued(queues, r, e);
      }
    }

    constructor ()
      ensures View() == Empty && Valid()
    {
      queues, pending, handlers, dispatchTasks, dispatchByAgent := map[], {}, map[], map[], map[];
      liveDispatches, loops, shuttingDown, seqNo := {}, {}, false, 0;
      msgs, futures, callers, tasks := map[], map[], map[], map[];
      place, ran, log := map[], {}, [];
    }

    method Register(role: Role, hasHandler: bool)
      modifies this
      ensures View() == DoRegister(old(View()), role, hasHandler)
    {
      if role !in queues {
        queues := queues[role := {}];
      }
      handlers := handlers[role := hasHandler];
    }

    /** `fut.set_result`: completing a future twice would raise, so every caller tests `done()`. */
    method SetResult(id: MsgId, r: Reply)
      requires id in futures && !Settled(futures[id])
      modifies this`futures
      ensures futures == old(futures)[id := Future([r])]
    {
      assert futures[id].settles + [r] == [r];
      futures := futures[id := Future(futures[id].settles + [r])];
    }

    /** Ask every unfinished task of the role to cancel. */
    method CancelDispatches(ts: set<TaskId>)
      requires ts <= tasks.Keys
      modifies this`tasks
      ensures tasks == CancelTasks(old(tasks), ts)
    {
      var left := ts;
      while left != {}
        invariant left <= ts
        invariant tasks == CancelTasks(old(tasks), ts - left)
      {
        var t :| t in left;
        if !IsFinished(tasks[t]) {
          tasks := tasks[t := tasks[t].(cancelRequested := true)];
        }
        left := left - {t};
        assert ts - left == ts - (left + {t}) + {t};
      }
    }

    /** Take entries until the queue is empty, answering each caller that is still waiting. */
    method DrainQueue(queue: set<Entry>)
      requires forall id :: id in pending ==> id in futures
      modifies this`futures, this`pending
      ensures futures == SettleAll(old(futures), Ids(queue) * old(pending), HandlerCancelled)
      ensures pending == old(pending) - Ids(queue)
    {
      var left := queue;
      while left != {}
        invariant left <= queue
        invariant pending == old(pending) - Ids(queue - left)
        invariant futures.Keys == old(futures.Keys)
        invariant futures == SettleAll(old(futures), Ids(queue - left) * old(pending), HandlerCancelled)
      {
        var e :| e in left;
        ghost var done := Ids(queue - left);
        if e.id in pending {
          pending := pending - {e.id};
          if !Settled(futures[e.id]) {
            SetResult(e.id, HandlerCancelled);
          }
        }
        left := left - {e};
        assert queue - left == (queue - (left + {e})) + {e} && left + {e} <= queue;
        IdsAdd(queue - (left + {e}), e);
        assert Ids(queue - left) == done + {e.id};
      }
      assert queue - {} == queue;
    }

    method CancelRole(role: Role)
      requires role in dispatchByAgent ==> dispatchByAgent[role] <= tasks.Keys
      modifies this`tasks, this`dispatchByAgent
      ensures tasks == CancelTasks(old(tasks), Tracked(old(View()), role))
      ensures dispatchByAgent == old(dispatchByAgent) - {role}
    {
      CancelNone(tasks);
      if role in dispatchByAgent {
        CancelDispatches(dispatchByAgent[role]);
      }
      dispatchByAgent := dispatchByAgent - {role};
    }

    method DropQueue(role: Role)
      requires forall id :: id in pending ==> id in futures
      modifies this`queues, this`futures, this`pending
      ensures futures == SettleAll(old(futures), Ids(QueueOf(old(View()), role)) * old(pending), HandlerCancelled)
      ensures pending == old(pending) - Ids(QueueOf(old(View()), role))
      ensures queues == old(queues) - {role}
    {
      DrainNone(futures, pending);
      if role in queues {
        DrainQueue(queues[role]);
      }
      queues := queues - {role};
    }

    method Unregister(role: Role)
      requires Valid()
      modifies this
      ensures View() == DoUnregister(old(View()), role)
    {
      hide Valid, SettleAll, CancelTasks, Ids, DrainPlaces;
      Pointers();
      loops := loops - {role};
      CancelRole(role);
      place := DrainPlaces(place, Ids(QueueOf(View(), role)));
      DropQueue(role);
      handlers := handlers - {role};
    }

    method BeginShutdown()
      modifies this`shuttingDown
      ensures View() == Apply(old(View()), Step.BeginShutdown)
    {
      shuttingDown := true;
    }

    method FailPending()
      requires Valid()
      modifies this`futures, this`pending
      ensures View() == DoFailPending(old(View()))
    {
      hide Valid;
      Pointers();
      var left := pending;
      while left != {}
        invariant pending == old(pending) && left <= pending && futures.Keys == old(futures.Keys)
        invariant futures == SettleAll(old(futures), pending - left, ShutdownError)
      {
        var id :| id in left;
        if !Settled(futures[id]) {
          SetResult(id, ShutdownError);
        }
        assert pending - (left - {id}) == (pending - left) + {id};
        left := left - {id};
      }
      assert pending - left == pending;
      pending := {};
    }

    /** The unfinished dispatches, whoever spawned them and whatever was evicted since. */
    method LiveDispatchTasks() returns (ts: set<TaskId>)
      requires Valid()
      ensures ts == set t | t in tasks && !IsFinished(tasks[t])
    {
      ts := set t | t in liveDispatches && !IsFinished(tasks[t]);
    }

    method SendChecked(id: MsgId, m: Message) returns (accepted: bool)
      modifies this
      ensures View() == DoSend(old(View()), id, m)
      ensures accepted == (m.target in old(queues))
    {
      msgs := msgs[id := m];
      if m.target !in queues {
        place := place[id := NoTarget];
        return false;
      }
      seqNo := seqNo + 1;
      var e := Entry(m.priority, seqNo, id);
      queues := queues[m.target := queues[m.target] + {e}];
      place := place[id := InQueue(m.target, e)];
      return true;
    }

    /** Up to the wait.  A refused request raises and leaves no trace. */
    method Request(id: MsgId, m: Message) returns (refused: bool)
      modifies this
      ensures View() == DoRequest(old(View()), id, m)
      ensures refused == old(shuttingDown)
    {
      if shuttingDown {
        return true;
      }
      futures := futures[id := Future([])];
      callers := callers[id := Waiting];
      pending := pending + {id};
      var _ := SendChecked(id, m.(isRequest := true));
      return false;
    }

    /** The arm of `request` that runs when its wait ended in a timeout or a cancellation. */
    method LeaveWait(id: MsgId)
      requires Valid() && id in callers && (callers[id].Cancelling? || callers[id].TimingOut?) && id in msgs
      modifies this
      ensures View() == DoCallerArm(old(View()), id)
    {
      hide Valid;
      Pointers();
      pending := pending - {id};
      if callers[id].Cancelling? {
        if id in dispatchTasks {
          CancelDispatches({dispatchTasks[id]});
        } else {
          msgs := msgs[id := msgs[id].(cancelled := true)];
        }
      }
      callers := callers[id := Gone];
    }

    method Respond(id: MsgId, r: Reply)
      requires forall i :: i in pending ==> i in futures
      modifies this`futures, this`pending
      ensures View() == DoRespond(old(View()), id, r)
    {
      if id in pending {
        pending := pending - {id};
        if !Settled(futures[id]) {
          SetResult(id, r);
        }
      }
    }

    /** `PriorityQueue.get`: the least entry, found by scanning. */
    method Least(q: set<Entry>) returns (e: Entry)
      requires q != {}
      ensures IsLeast(e, q)
    {
      e :| e in q;
      var left := q - {e};
      while left != {}
        invariant left <= q && e in q - left
        invariant forall f :: f in q - left ==> !Before(f, e)
      {
        var f :| f in left;
        ghost var seen := q - left;
        if Before(f, e) {
          e := f;
        }
        left := left - {f};
        assert q - left == seen + {f};
      }
      assert q - {} == q;
    }

    /** `create_task(_dispatch(msg))` and the three places that keep a reference to the task. */
    method CreateDispatch(role: Role, id: MsgId, t: TaskId)
      requires id in msgs
      modifies this`tasks, this`liveDispatches, this`dispatchTasks, this`dispatchByAgent
      ensures tasks == old(tasks)[t := Task(id, role, Created, false)]
      ensures liveDispatches == old(liveDispatches) + {t}
      ensures dispatchTasks == if msgs[id].isRequest then old(dispatchTasks)[id := t] else old(dispatchTasks)
      ensures dispatchByAgent == old(dispatchByAgent)[role := Tracked(old(View()), role) + {t}]
    {
      tasks := tasks[t := Task(id, role, Created, false)];
      liveDispatches := liveDispatches + {t};
      if msgs[id].isRequest {
        dispatchTasks := dispatchTasks[id := t];
      }
      if role !in dispatchByAgent {
        dispatchByAgent := dispatchByAgent[role := {}];
      }
      dispatchByAgent := dispatchByAgent[role := dispatchByAgent[role] + {t}];
    }

    /** One turn of the consumer loop of `role`; `t` names the task it would create. */
    method ConsumeOne(role: Role, t: TaskId) returns (e: Entry)
      requires Valid() && role in loops && role in queues && queues[role] != {} && t !in tasks
      modifies this
      ensures IsLeast(e, old(queues)[role]) && e.id in old(msgs)
      ensures View() == DoDequeue(old(View()), role, e, t)
    {
      hide Valid;
      e := Least(queues[role]);
      Pointers();
      queues := queues[role := queues[role] - {e}];
      log := log + [Popped(role, e)];
      if msgs[e.id].cancelled {
        place := place[e.id := Discarded];
      } else {
        CreateDispatch(role, e.id, t);
        place := place[e.id := Dispatched(t)];
      }
    }

    /** First step of a dispatch task; `entered` says whether its handler was called. */
    method StartDispatch(t: TaskId) returns (entered: bool)
      requires t in tasks && tasks[t].phase.Created? && tasks[t].msg in msgs
      modifies this
      ensures View() == DoStartBody(old(View()), t)
      ensures entered == (!old(tasks)[t].cancelRequested && HasHandler(old(View()), old(tasks)[t].role))
    {
      var task := tasks[t];
      if task.cancelRequested {
        tasks := tasks[t := task.(phase := Finished(Unstarted))];
        return false;
      }
      if task.role !in handlers || !handlers[task.role] {
        tasks := tasks[t := task.(phase := Finished(NoHandler))];
        if msgs[task.msg].isRequest {
          dispatchTasks := dispatchTasks - {task.msg};
        }
        return false;
      }
      tasks := tasks[t := task.(phase := Running)];
      ran := ran + {task.msg};
      return true;
    }

    /** What each way of ending does for a caller; only a cancellation looks past the message type. */
    method Answer(id: MsgId, o: Outcome)
      requires id in msgs && forall i :: i in pending ==> i in futures
      modifies this`futures, this`pending
      ensures var answers := msgs[id].isRequest || o.Cancelled?;
        View() == if answers then DoRespond(old(View()), id, ReplyFor(o)) else old(View())
    {
      match o
      case Returned =>
        if msgs[id].isRequest { Respond(id, HandlerResult); }
      case ReturnedNone =>
        if msgs[id].isRequest && id in pending { Respond(id, EmptyReply); }
      case Raised =>
        if msgs[id].isRequest { Respond(id, HandlerError); }
      case Cancelled =>
        Respond(id, HandlerCancelled);
    }

    /** The handler ended: answer the caller, then the `finally`. */
    method FinishDispatch(t: TaskId, o: Outcome)
      requires Valid() && t in tasks && tasks[t].phase.Running? && tasks[t].msg in msgs
      modifies this
      ensures View() == DoFinishBody(old(View()), t, o)
    {
      hide Valid, ReplyFor;
      Pointers();
      var id := tasks[t].msg;
      Answer(id, o);
      if msgs[id].isRequest {
        dispatchTasks := dispatchTasks - {id};
      }
      tasks := tasks[t := tasks[t].(phase := Finished(Exited))];
    }
  }

  lemma CancelNone(tasks: map<TaskId, Task>)
    ensures CancelTasks(tasks, {}) == tasks
  {
  }

  lemma DrainNone(futures: map<MsgId, Future>, pending: set<MsgId>)
    ensures SettleAll(futures, Ids({}) * pending, HandlerCancelled) == futures && pending - Ids({}) == pending
  {
  }

  lemma IdsAdd(q: set<Entry>, e: Entry)
    ensures Ids(q + {e}) == Ids(q) + {e.id}
  {
    forall i | i in Ids(q) + {e.id} ensures i in Ids(q + {e}) {
      if i == e.id {
        assert e in q + {e};
      } else {
        var f :| f in q && f.id == i;
        assert f in q + {e};
      }
    }
  }
}
