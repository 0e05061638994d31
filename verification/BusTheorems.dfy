/** The guarantees of the bus over whole runs: every interleaving of the steps of `BusSpec`. */
module BusTheorems {
  import opened BusSpec
  import opened BusInvariants

  lemma RunInv(steps: seq<Step>)
    ensures Inv(Run(Empty, steps))
  {
    InvAlways(Empty, steps);
  }

  // ---- which fields each operation can change -----------------------------

  lemma SendFrame(s: Bus, id: MsgId, m: Message)
    ensures var s' := DoSend(s, id, m);
      s' == s.(msgs := s.msgs[id := m], queues := s'.queues, seqNo := s'.seqNo, place := s'.place)
  {
  }

  lemma RequestFrame(s: Bus, id: MsgId, m: Message)
    ensures s.shuttingDown ==> DoRequest(s, id, m) == s
    ensures !s.shuttingDown ==>
      var s' := DoRequest(s, id, m);
      var m' := m.(isRequest := true);
      s' == DoSend(s, id, m').(futures := s'.futures, callers := s'.callers, pending := s.pending + {id})
  {
  }

  lemma ArmFrame(s: Bus, id: MsgId)
    requires id in s.callers && id in s.msgs
    ensures var s' := DoCallerArm(s, id);
      s' == s.(pending := s.pending - {id}, callers := s'.callers, tasks := s'.tasks, msgs := s'.msgs)
  {
  }

  lemma DequeueFrame(s: Bus, role: Role, e: Entry, t: TaskId)
    requires role in s.queues && e.id in s.msgs
    ensures var s' := DoDequeue(s, role, e, t);
      s' == s.(queues := s.queues[role := s.queues[role] - {e}], log := s.log + [Popped(role, e)],
               tasks := s'.tasks, liveDispatches := s'.liveDispatches, dispatchTasks := s'.dispatchTasks,
               dispatchByAgent := s'.dispatchByAgent, place := s'.place)
  {
  }

  lemma StartFrame(s: Bus, t: TaskId)
    requires t in s.tasks && s.tasks[t].msg in s.msgs
    ensures var s' := DoStartBody(s, t); s' == s.(tasks := s'.tasks, dispatchTasks := s'.dispatchTasks, ran := s'.ran)
  {
  }

  lemma FinishFrame(s: Bus, t: TaskId, o: Outcome)
    requires t in s.tasks && s.tasks[t].msg in s.msgs
    ensures var s' := DoFinishBody(s, t, o);
      && s' == s.(tasks := s'.tasks, dispatchTasks := s'.dispatchTasks, futures := s'.futures, pending := s'.pending)
      && s'.pending <= s.pending
  {
  }

  lemma TrackedFrame(s: Bus, t: TaskId)
    requires t in s.tasks
    ensures var s' := DoTrackedCallback(s, t); s' == s.(dispatchByAgent := s'.dispatchByAgent)
  {
  }

  // ---- accounting for every pending id ------------------------------------

  /** An entry for `id` sits in a queue the bus still owns, and its caller has not cancelled it. */
  ghost predicate WaitsInQueue(s: Bus, id: MsgId) {
    id in s.msgs && !s.msgs[id].cancelled && exists r, e :: Queued(s.queues, r, e) && e.id == id
  }

  ghost predicate InFlight(s: Bus, id: MsgId) {
    exists t :: t in s.tasks && s.tasks[t].msg == id && !IsFinished(s.tasks[t])
  }

  ghost predicate SentNowhere(s: Bus, id: MsgId) {
    id in s.place && s.place[id].NoTarget?
  }

  /** Its task ended without calling a handler. */
  ghost predicate NeverHandled(s: Bus, id: MsgId) {
    exists t :: t in s.tasks && s.tasks[t].msg == id
      && (s.tasks[t].phase == Finished(Unstarted) || s.tasks[t].phase == Finished(NoHandler))
  }

  function One(b: bool): nat { if b then 1 else 0 }

  /** In every reachable state a pending id has exactly one explanation. */
  lemma EveryPendingIdIsAccountedFor(steps: seq<Step>, id: MsgId)
    requires id in Run(Empty, steps).pending
    ensures var s := Run(Empty, steps);
      One(WaitsInQueue(s, id)) + One(InFlight(s, id)) + One(SentNowhere(s, id)) + One(NeverHandled(s, id)) == 1
  {
    hide Run, Numbered, LogOrdered, Requests, Answered, Awaited, TracksLive, Indexed, RanIffEntered, Known;
    RunInv(steps);
    var s := Run(Empty, steps);
    assert Unanswered(id, s.place, s.tasks);
    match s.place[id]
    case InQueue(r, e) => assert Queued(s.queues, r, e);
    case Dispatched(t) =>
      assert s.tasks[t].msg == id;
      assert forall r, e :: Queued(s.queues, r, e) ==> e.id != id;
      assert forall u :: u in s.tasks && s.tasks[u].msg == id ==> u == t;
      if s.tasks[t].phase.Finished? {
        assert s.tasks[t].phase.how.Unstarted? || s.tasks[t].phase.how.NoHandler?;
        assert NeverHandled(s, id) && !InFlight(s, id);
      } else {
        assert InFlight(s, id) && !NeverHandled(s, id);
      }
    case NoTarget =>
  }

  /** A caller is stranded (nothing left that could answer it before its timeout or a shutdown)
      exactly when its message had no target or its task ended without calling a handler. */
  lemma StrandedExactlyWhenLost(steps: seq<Step>, id: MsgId)
    requires id in Run(Empty, steps).pending
    ensures var s := Run(Empty, steps);
      !WaitsInQueue(s, id) && !InFlight(s, id) <==> SentNowhere(s, id) || NeverHandled(s, id)
  {
    EveryPendingIdIsAccountedFor(steps, id);
  }

  /** A future is completed at most once, and none is forgotten: an incomplete one is pending. */
  lemma FuturesSettleAtMostOnce(steps: seq<Step>, id: MsgId)
    requires id in Run(Empty, steps).futures
    ensures var s := Run(Empty, steps); |s.futures[id].settles| <= 1 && (s.futures[id].settles == [] ==> id in s.pending)
  {
    RunInv(steps);
  }

  /** Every exit of a started request dispatch forgets its id and leaves its future complete,
      with the reply that names how the handler ended unless the caller had already gone. */
  lemma StartedDispatchAnswers(s: Bus, t: TaskId, o: Outcome)
    requires Inv(s) && Enabled(s, FinishBody(t, o))
    requires s.tasks[t].msg in s.futures
    ensures var id := s.tasks[t].msg; var s' := Apply(s, FinishBody(t, o));
      && id !in s'.pending
      && id in s'.futures && Settled(s'.futures[id])
      && (!Settled(s.futures[id]) ==> s'.futures[id].settles == [ReplyFor(o)])
  {
    hide QueuePlaces, TaskPlaces, Numbered, LogOrdered, Awaited, Accounted, TracksLive, Indexed, RanIffEntered, Known;
  }

  /** Evicting a role answers every request still queued for it. */
  lemma EvictionAnswersTheQueued(s: Bus, role: Role, e: Entry)
    requires Inv(s) && Queued(s.queues, role, e) && e.id in s.futures
    ensures var s' := Apply(s, Unregister(role));
      && e.id !in s'.pending
      && e.id in s'.futures && Settled(s'.futures[e.id])
      && (!Settled(s.futures[e.id]) ==> s'.futures[e.id].settles == [HandlerCancelled])
  {
    hide QueuePlaces, TaskPlaces, Numbered, LogOrdered, Awaited, Accounted, TracksLive, Indexed, RanIffEntered, Known;
    assert e.id in Ids(QueueOf(s, role));
  }

  // ---- the two windows no cleanup covers ----------------------------------

  lemma RunSnoc(s: Bus, steps: seq<Step>, x: Step)
    ensures Run(s, steps + [x]) == Apply(Run(s, steps), x)
  {
    assert (steps + [x])[..|steps|] == steps;
  }

  const Ask := Message("butler", 1, true, false)
  const AskEntry := Entry(1, 1, 0)

  /** One request sent to a registered role with a running consumer, and dequeued. */
  function Asked(hasHandler: bool): seq<Step> {
    [] + [Register("butler", hasHandler)] + [StartLoop("butler")] + [Request(0, Ask)] + [Dequeue("butler", AskEntry, 0)]
  }

  function Sent(hasHandler: bool): Bus {
    Empty.(queues := map["butler" := {AskEntry}], pending := {0}, handlers := map["butler" := hasHandler],
           loops := {"butler"}, seqNo := 1, msgs := map[0 := Ask], futures := map[0 := Future([])],
           callers := map[0 := Waiting], place := map[0 := InQueue("butler", AskEntry)])
  }

  function Created0(hasHandler: bool): Bus {
    Sent(hasHandler).(queues := map["butler" := {}], dispatchTasks := map[0 := 0],
                      dispatchByAgent := map["butler" := {0}], liveDispatches := {0},
                      tasks := map[0 := Task(0, "butler", Created, false)],
                      place := map[0 := Dispatched(0)], log := [Popped("butler", AskEntry)])
  }

  lemma SentState(hasHandler: bool)
    ensures Run(Empty, [] + [Register("butler", hasHandler)] + [StartLoop("butler")] + [Request(0, Ask)]) == Sent(hasHandler)
  {
    RunSnoc(Empty, [], Register("butler", hasHandler));
    RunSnoc(Empty, [] + [Register("butler", hasHandler)], StartLoop("butler"));
    RunSnoc(Empty, [] + [Register("butler", hasHandler)] + [StartLoop("butler")], Request(0, Ask));
    assert {} + {AskEntry} == {AskEntry};
  }

  lemma AskedState(hasHandler: bool)
    ensures Run(Empty, Asked(hasHandler)) == Created0(hasHandler)
  {
    SentState(hasHandler);
    RunSnoc(Empty, [] + [Register("butler", hasHandler)] + [StartLoop("butler")] + [Request(0, Ask)], Dequeue("butler", AskEntry, 0));
    var s := Sent(hasHandler);
    assert IsLeast(AskEntry, s.queues["butler"]);
    assert {AskEntry} - {AskEntry} == {} && Tracked(s, "butler") + {0} == {0};
  }

  /** A role evicted between the creation of a dispatch and its first step: the body never
      runs, so nothing answers the caller, who is left with the request timeout. */
  lemma EvictedBeforeTheFirstStep()
    ensures var s := Run(Empty, Asked(true) + [Unregister("butler")] + [StartBody(0)]);
      0 in s.pending && 0 in s.futures && !Settled(s.futures[0]) && !InFlight(s, 0) && !WaitsInQueue(s, 0)
  {
    hide Run;
    AskedState(true);
    RunSnoc(Empty, Asked(true), Unregister("butler"));
    RunSnoc(Empty, Asked(true) + [Unregister("butler")], StartBody(0));
    var s := DoUnregister(Created0(true), "butler");
    assert Ids(QueueOf(Created0(true), "butler")) == {};
    assert s.tasks == map[0 := Task(0, "butler", Created, true)];
  }

  /** A role registered without a handler: the dispatch ends and the caller is not answered. */
  lemma NoHandlerStrandsTheCaller()
    ensures var s := Run(Empty, Asked(false) + [StartBody(0)]);
      0 in s.pending && 0 in s.futures && !Settled(s.futures[0]) && !InFlight(s, 0) && !WaitsInQueue(s, 0)
  {
    hide Run;
    AskedState(false);
    RunSnoc(Empty, Asked(false), StartBody(0));
  }

  // ---- what is still running ----------------------------------------------

  /** `live_dispatch_tasks()` is the set of unfinished dispatches, whatever was evicted since. */
  lemma LiveDispatchesAreTheUnfinished(steps: seq<Step>)
    ensures var s := Run(Empty, steps); LiveDispatchTasks(s) == set t | t in s.tasks && !IsFinished(s.tasks[t])
  {
    RunInv(steps);
  }

  // ---- shutdown -----------------------------------------------------------

  lemma PendingStaysEmptyStep(s: Bus, step: Step)
    requires s.shuttingDown && s.pending == {}
    ensures Apply(s, step).shuttingDown && Apply(s, step).pending == {}
  {
    hide DoSend, DoRequest, DoCallerArm, DoDequeue, DoStartBody, DoFinishBody, DoTrackedCallback, IsLeast;
    if Enabled(s, step) {
      match step
      case Send(id, m) => SendFrame(s, id, m);
      case Request(id, m) => RequestFrame(s, id, m);
      case Dequeue(role, e, t) => DequeueFrame(s, role, e, t);
      case CallerArm(id) => ArmFrame(s, id);
      case StartBody(t) => StartFrame(s, t);
      case FinishBody(t, o) => FinishFrame(s, t, o);
      case TrackedCallback(t) => TrackedFrame(s, t);
      case _ =>
    }
  }

  /** Once shutdown began and pending requests were failed, nothing becomes pending again. */
  lemma {:induction false} PendingStaysEmpty(s: Bus, steps: seq<Step>)
    requires Inv(s) && s.shuttingDown && s.pending == {}
    ensures var s' := Run(s, steps); s'.shuttingDown && s'.pending == {}
    decreases |steps|
  {
    if steps != [] {
      PendingStaysEmpty(s, steps[..|steps| - 1]);
      PendingStaysEmptyStep(Run(s, steps[..|steps| - 1]), steps[|steps| - 1]);
    }
  }

  lemma ShutdownAnswersEveryone(before: seq<Step>, after: seq<Step>)
    requires Run(Empty, before).shuttingDown
    ensures var s := Run(Apply(Run(Empty, before), FailPending), after);
      s.pending == {} && forall id :: id in s.futures ==> |s.futures[id].settles| == 1
  {
    RunInv(before);
    var s0 := Run(Empty, before);
    InvKept(s0, FailPending);
    var s1 := Apply(s0, FailPending);
    PendingStaysEmpty(s1, after);
    InvAlways(s1, after);
  }

  // ---- order --------------------------------------------------------------

  /** Each dequeue takes an entry below which nothing is queued, and the log keeps the order
      in which equal-priority messages of one role were sent. */
  lemma DequeuesInSendOrder(steps: seq<Step>, i: nat, j: nat)
    requires i < j < |Run(Empty, steps).log|
    ensures var log := Run(Empty, steps).log;
      log[i].role == log[j].role && log[i].entry.priority == log[j].entry.priority
      ==> log[i].entry.seqNo < log[j].entry.seqNo
  {
    RunInv(steps);
  }

  /** `b` was not taken before `a`, and while `b` is queued, `a` is queued too or already taken. */
  ghost predicate Ahead(queues: map<Role, set<Entry>>, log: seq<Popped>, seqNo: nat, r: Role, a: Entry, b: Entry) {
    && b.seqNo <= seqNo
    && (Queued(queues, r, b) ==> Queued(queues, r, a) || Popped(r, a) in log)
    && (forall j :: 0 <= j < |log| && log[j] == Popped(r, b) ==> Popped(r, a) in log[..j])
  }

  lemma AheadAfterAdd(queues: map<Role, set<Entry>>, log: seq<Popped>, seqNo: nat, r: Role, a: Entry, b: Entry, q: Role, e: Entry)
    requires Ahead(queues, log, seqNo, r, a, b) && q in queues && e.seqNo == seqNo + 1
    ensures Ahead(queues[q := queues[q] + {e}], log, seqNo + 1, r, a, b)
  {
    var queues' := queues[q := queues[q] + {e}];
    assert forall r', f :: Queued(queues', r', f) <==> (r' == q && f == e) || Queued(queues, r', f);
  }

  lemma AheadAfterPop(queues: map<Role, set<Entry>>, log: seq<Popped>, seqNo: nat, r: Role, a: Entry, b: Entry, q: Role, e: Entry)
    requires Ahead(queues, log, seqNo, r, a, b) && Before(a, b) && q in queues && IsLeast(e, queues[q])
    ensures Ahead(queues[q := queues[q] - {e}], log + [Popped(q, e)], seqNo, r, a, b)
  {
    var queues' := queues[q := queues[q] - {e}];
    var log' := log + [Popped(q, e)];
    assert Queued(queues, q, e);
    assert forall r', f :: Queued(queues', r', f) <==> Queued(queues, r', f) && !(r' == q && f == e);
    forall j | 0 <= j < |log'| && log'[j] == Popped(r, b) ensures Popped(r, a) in log'[..j] {
      assert log'[..j] == log[..j];
      assert j == |log| ==> log[..j] == log;
    }
  }

  ghost predicate AheadIn(s: Bus, r: Role, a: Entry, b: Entry) {
    Ahead(s.queues, s.log, s.seqNo, r, a, b)
  }

  lemma AheadKept(s: Bus, step: Step, r: Role, a: Entry, b: Entry)
    requires AheadIn(s, r, a, b) && Before(a, b)
    ensures AheadIn(Apply(s, step), r, a, b)
  {
    hide DoSend, DoRequest, DoCallerArm, DoDequeue, DoStartBody, DoFinishBody, DoTrackedCallback, IsLeast;
    hide Ahead, Before;
    if Enabled(s, step) {
      match step
      case Dequeue(role, e, t) =>
        DequeueFrame(s, role, e, t);
        AheadAfterPop(s.queues, s.log, s.seqNo, r, a, b, role, e);
      case Send(id, m) => AheadSend(s, id, m, r, a, b);
      case Request(id, m) =>
        RequestFrame(s, id, m);
        AheadSend(s, id, m.(isRequest := true), r, a, b);
      case Unregister(role) => AheadAfterDrop(s.queues, s.log, s.seqNo, r, a, b, role);
      case Register(role, h) => AheadAfterNew(s.queues, s.log, s.seqNo, r, a, b, role);
      case CallerArm(id) => ArmFrame(s, id);
      case StartBody(t) => StartFrame(s, t);
      case FinishBody(t, o) => FinishFrame(s, t, o);
      case TrackedCallback(t) => TrackedFrame(s, t);
      case _ =>
    }
  }

  lemma AheadAfterDrop(queues: map<Role, set<Entry>>, log: seq<Popped>, seqNo: nat, r: Role, a: Entry, b: Entry, q: Role)
    requires Ahead(queues, log, seqNo, r, a, b)
    ensures Ahead(queues - {q}, log, seqNo, r, a, b)
  {
    assert forall r', f :: Queued(queues - {q}, r', f) <==> r' != q && Queued(queues, r', f);
  }

  lemma AheadAfterNew(queues: map<Role, set<Entry>>, log: seq<Popped>, seqNo: nat, r: Role, a: Entry, b: Entry, q: Role)
    requires Ahead(queues, log, seqNo, r, a, b)
    ensures q !in queues ==> Ahead(queues[q := {}], log, seqNo, r, a, b)
  {
    assert q !in queues ==> forall r', f :: Queued(queues[q := {}], r', f) == Queued(queues, r', f);
  }

  lemma AheadSend(s: Bus, id: MsgId, m: Message, r: Role, a: Entry, b: Entry)
    requires AheadIn(s, r, a, b)
    ensures AheadIn(DoSend(s, id, m), r, a, b)
  {
    hide Ahead;
    if Accepts(s, m.target) {
      AheadAfterAdd(s.queues, s.log, s.seqNo, r, a, b, m.target, Entry(m.priority, s.seqNo + 1, id));
    }
  }

  /** No overtaking: while `a` is queued below `b` for the same role, `b` is never taken before
      `a`, whatever happens in between; eviction drops both. */
  lemma {:induction false} NoOvertaking(s: Bus, steps: seq<Step>, r: Role, a: Entry, b: Entry)
    requires AheadIn(s, r, a, b) && Before(a, b)
    ensures AheadIn(Run(s, steps), r, a, b)
    decreases |steps|
  {
    if steps != [] {
      NoOvertaking(s, steps[..|steps| - 1], r, a, b);
      AheadKept(Run(s, steps[..|steps| - 1]), steps[|steps| - 1], r, a, b);
    }
  }

  /** What puts two messages into that relation: being queued together, in send order. */
  lemma QueuedTogether(steps: seq<Step>, r: Role, a: Entry, b: Entry)
    requires var s := Run(Empty, steps); Queued(s.queues, r, a) && Queued(s.queues, r, b)
    requires a.priority == b.priority && a.seqNo < b.seqNo
    ensures AheadIn(Run(Empty, steps), r, a, b) && Before(a, b)
  {
    hide Run;
    RunInv(steps);
    var s := Run(Empty, steps);
    forall j | 0 <= j < |s.log| ensures s.log[j] != Popped(r, b) {
    }
  }

  // ---- cancellation -------------------------------------------------------

  /** No handler has seen `id`, and nothing can hand it to one any more. */
  ghost predicate Doomed(s: Bus, id: MsgId) {
    && id !in s.ran && id in s.msgs && id in s.place
    && match s.place[id]
       case InQueue(_, _) => s.msgs[id].cancelled
       case Dispatched(t) => t in s.tasks && s.tasks[t].msg == id
                             && (IsFinished(s.tasks[t]) || (s.tasks[t].phase.Created? && s.tasks[t].cancelRequested))
       case _ => true
  }

  lemma ArmDooms(s: Bus, id: MsgId)
    requires Inv(s) && id in s.callers && id in s.futures && s.callers[id].Cancelling? && id !in s.ran && id in s.msgs
    ensures Doomed(DoCallerArm(s, id), id)
  {
    hide QueuePlaces, Numbered, LogOrdered, Answered, Awaited, Accounted, TracksLive;
    if s.place[id].Dispatched? {
      var t := s.place[id].task;
      assert s.tasks[t].msg == id;
      if !IsFinished(s.tasks[t]) {
        assert s.dispatchTasks[id] == t;
      }
    }
  }

  lemma DoomedAfterUnregister(s: Bus, role: Role, id: MsgId)
    requires Doomed(s, id)
    ensures Doomed(DoUnregister(s, role), id)
  {
  }

  lemma DoomedAfterSend(s: Bus, other: MsgId, m: Message, id: MsgId)
    requires Doomed(s, id) && other != id
    ensures Doomed(DoSend(s, other, m), id)
  {
  }

  lemma DoomedAfterDequeue(s: Bus, role: Role, e: Entry, t: TaskId, id: MsgId)
    requires Doomed(s, id) && e.id in s.place && s.place[e.id] == InQueue(role, e)
    requires role in s.queues && e.id in s.msgs && t !in s.tasks
    ensures Doomed(DoDequeue(s, role, e, t), id)
  {
  }

  /** Another message's task starts or ends: `id` is not affected; its own can only end. */
  lemma DoomedAfterBody(s: Bus, t: TaskId, o: Outcome, id: MsgId)
    requires Doomed(s, id) && t in s.tasks && s.tasks[t].msg in s.msgs
    requires s.tasks[t].msg == id ==> s.place[id] == Dispatched(t)
    requires !IsFinished(s.tasks[t])
    ensures s.tasks[t].phase.Created? ==> Doomed(DoStartBody(s, t), id)
    ensures s.tasks[t].phase.Running? ==> Doomed(DoFinishBody(s, t, o), id)
  {
    hide Settle;
  }

  lemma DoomedAfterArm(s: Bus, other: MsgId, id: MsgId)
    requires Doomed(s, id) && other in s.callers && other in s.msgs
    ensures Doomed(DoCallerArm(s, other), id)
  {
  }

  lemma DoomedKept(s: Bus, step: Step, id: MsgId)
    requires Inv(s) && Doomed(s, id)
    ensures Doomed(Apply(s, step), id)
  {
    hide DoSend, DoRequest, DoCallerArm, DoDequeue, DoStartBody, DoFinishBody, DoTrackedCallback, DoUnregister;
    hide QueuePlaces, TaskPlaces, Numbered, LogOrdered, Requests, Answered, Awaited, Accounted, TracksLive, Indexed, RanIffEntered, Known;
    if Enabled(s, step) {
      match step
      case Dequeue(role, e, t) =>
        QueuedPlace(s, role, e);
        DoomedAfterDequeue(s, role, e, t, id);
      case Unregister(role) => DoomedAfterUnregister(s, role, id);
      case Send(other, m) => DoomedAfterSend(s, other, m, id);
      case Request(other, m) =>
        RequestFrame(s, other, m);
        DoomedAfterSend(s, other, m.(isRequest := true), id);
      case CallerArm(other) => DoomedAfterArm(s, other, id);
      case StartBody(t) =>
        TaskAt(s, t);
        DoomedAfterBody(s, t, Returned, id);
      case FinishBody(t, o) =>
        TaskAt(s, t);
        DoomedAfterBody(s, t, o, id);
      case TrackedCallback(t) => TrackedFrame(s, t);
      case _ =>
    }
  }

  lemma TaskAt(s: Bus, t: TaskId)
    requires TaskPlaces(s.tasks, s.place) && t in s.tasks
    ensures s.tasks[t].msg in s.place && s.place[s.tasks[t].msg] == Dispatched(t)
  {
  }

  lemma {:induction false} DoomedForever(s: Bus, steps: seq<Step>, id: MsgId)
    requires Inv(s) && Doomed(s, id)
    ensures Doomed(Run(s, steps), id)
    decreases |steps|
  {
    if steps != [] {
      DoomedForever(s, steps[..|steps| - 1], id);
      InvAlways(s, steps[..|steps| - 1]);
      DoomedKept(Run(s, steps[..|steps| - 1]), steps[|steps| - 1], id);
    }
  }

  /** A caller's cancellation that lands before the dispatch body started (while the message is
      queued, or between dequeue and first step) keeps the message from every handler, forever. */
  lemma CancelledBeforeItStartedNeverRuns(before: seq<Step>, after: seq<Step>, id: MsgId)
    requires var s := Run(Empty, before); Enabled(s, CallerArm(id)) && s.callers[id].Cancelling? && id !in s.ran
    ensures id !in Run(Apply(Run(Empty, before), CallerArm(id)), after).ran
  {
    RunInv(before);
    var s := Run(Empty, before);
    ArmDooms(s, id);
    InvKept(s, CallerArm(id));
    DoomedForever(Apply(s, CallerArm(id)), after, id);
  }
}
